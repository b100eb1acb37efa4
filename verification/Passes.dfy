/** `apply_pending` over every space with due operations, when nothing else commits and no file is
    locked. */
module Passes {
  import opened Store
  import opened Protocol
  import opened Invariant
  import opened InvariantProof
  import opened Coordinator

  // The operation of a vector no index can hold.
  predicate CannotApply(rows: Rows, op: Op) {
    op.kind.Add? && op.rep in rows && rows[op.rep].Eligible() && !rows[op.rep].Indexable()
  }

  predicate PendingIn(ops: Ops, s: SpaceId) {
    exists o :: o in ops && ops[o].state.Pending? && ops[o].space == s
  }

  // What one pass over everything due does to an operation.
  ghost predicate PassedOp(rows: Rows, op: Op, op': Op) {
    if op.state.Pending? then SettledOp(op, op', !CannotApply(rows, op)) else op' == op
  }

  ghost predicate Passed(d: Db, d': Db) {
    && d' == d.(ops := d'.ops) && d'.ops.Keys == d.ops.Keys
    && forall o :: o in d.ops ==> PassedOp(d.rows, d.ops[o], d'.ops[o])
  }

  lemma {:induction false} SplitIds(todo: seq<Due>, s: SpaceId)
    ensures Ids(InSpace(todo, s)) + Ids(Elsewhere(todo, s)) == Ids(todo)
    ensures |Elsewhere(todo, s)| + |InSpace(todo, s)| == |todo|
    decreases |todo|
  {
    if todo != [] {
      SplitIds(todo[1..], s);
      IdsOfCons(todo[0], todo[1..]);
      assert todo == [todo[0]] + todo[1..];
      if todo[0].space == s { IdsOfCons(todo[0], InSpace(todo[1..], s)); } else { IdsOfCons(todo[0], Elsewhere(todo[1..], s)); }
    }
  }

  lemma {:induction false} SplitElements(todo: seq<Due>, s: SpaceId)
    ensures forall x :: x in InSpace(todo, s) <==> x in todo && x.space == s
    ensures forall x :: x in Elsewhere(todo, s) <==> x in todo && x.space != s
    decreases |todo|
  {
    if todo != [] {
      SplitElements(todo[1..], s);
      assert forall x :: x in todo <==> x == todo[0] || x in todo[1..];
    }
  }

  lemma SplitMembers(todo: seq<Due>, s: SpaceId)
    ensures Ids(InSpace(todo, s)) + Ids(Elsewhere(todo, s)) == Ids(todo)
    ensures forall i {:trigger InSpace(todo, s)[i]} :: 0 <= i < |InSpace(todo, s)| ==> InSpace(todo, s)[i] in todo && InSpace(todo, s)[i].space == s
    ensures forall i {:trigger Elsewhere(todo, s)[i]} :: 0 <= i < |Elsewhere(todo, s)| ==> Elsewhere(todo, s)[i] in todo && Elsewhere(todo, s)[i].space != s
    ensures forall x :: x in todo ==> x in if x.space == s then InSpace(todo, s) else Elsewhere(todo, s)
    ensures |Elsewhere(todo, s)| + |InSpace(todo, s)| == |todo|
  {
    SplitIds(todo, s);
    SplitElements(todo, s);
  }

  lemma IdsOfCons(x: Due, rest: seq<Due>)
    ensures Ids([x] + rest) == {x.id} + Ids(rest)
  {
    forall o | o in Ids(rest) ensures o in Ids([x] + rest) {
      var i :| 0 <= i < |rest| && rest[i].id == o;
      assert ([x] + rest)[i + 1].id == o;
    }
    assert ([x] + rest)[0].id == x.id;
  }

  type Dirs = map<SpaceId, Protocol.Directory>

  // How far a pass has come: `todo` is untouched, with its spaces; the rest is settled.
  ghost predicate OpAt(d0: Db, d: Db, todo: seq<Due>, o: OpId)
    requires o in d0.ops && o in d.ops
  {
    if o in Ids(todo) then d.ops[o] == d0.ops[o] else PassedOp(d0.rows, d0.ops[o], d.ops[o])
  }

  ghost predicate Awaits(todo: seq<Due>, s: SpaceId) { exists x :: x in todo && x.space == s }

  ghost predicate SpaceAt(d0: Db, dirs0: Dirs, dirs: Dirs, todo: seq<Due>, s: SpaceId) {
    if Awaits(todo, s) then
      && (s in dirs <==> s in dirs0) && (s in dirs ==> dirs[s] == dirs0[s])
      && forall o :: o in d0.ops && d0.ops[o].state.Pending? && d0.ops[o].space == s ==> o in Ids(todo)
    else if PendingIn(d0.ops, s) then s in dirs && dirs[s].stale == {}
    else (s in dirs <==> s in dirs0) && (s in dirs ==> dirs[s] == dirs0[s])
  }

  ghost predicate Progress(d0: Db, d: Db, dirs0: Dirs, dirs: Dirs, todo: seq<Due>) {
    && d == d0.(ops := d.ops) && d.ops.Keys == d0.ops.Keys
    && (forall x :: x in todo ==> x.id in d0.ops && d0.ops[x.id].state.Pending? && Names(d0, x))
    && (forall o {:trigger OpAt(d0, d, todo, o)} :: o in d0.ops ==> OpAt(d0, d, todo, o))
    && (forall s {:trigger SpaceAt(d0, dirs0, dirs, todo, s)} :: SpaceAt(d0, dirs0, dirs, todo, s))
  }

  lemma ProgressOp(d0: Db, d: Db, d': Db, todo: seq<Due>, s: SpaceId, w: Work, o: OpId)
    requires d.rows == d0.rows && d.ops.Keys == d0.ops.Keys && o in d0.ops && OpAt(d0, d, todo, o)
    requires forall x :: x in todo ==> x.id in d0.ops && d0.ops[x.id].state.Pending? && Names(d0, x)
    requires w.ops == InSpace(todo, s) && Settled(d, d', w)
    requires forall k :: 0 <= k < |w.ops| ==> (w.ops[k].id in w.done <==> !Fails(d.rows, w.ops[k]))
    requires forall i, j :: 0 <= i < j < |todo| ==> todo[i].id != todo[j].id
    ensures OpAt(d0, d', Elsewhere(todo, s), o)
  {
    SplitMembers(todo, s);
    if o in Ids(w.ops) {
      var k :| 0 <= k < |w.ops| && w.ops[k].id == o;
      assert w.ops[k] in todo;
      NotElsewhere(todo, s, w.ops[k]);
    }
  }

  lemma ProgressSpace(d0: Db, d: Db, d': Db, dirs0: Dirs, dirs: Dirs, dirs': Dirs, todo: seq<Due>, s: SpaceId, w: Work)
    requires Progress(d0, d, dirs0, dirs, todo) && InSpace(todo, s) != []
    requires w.ops == InSpace(todo, s) && Settled(d, d', w)
    requires forall k :: 0 <= k < |w.ops| ==> (w.ops[k].id in w.done <==> !Fails(d.rows, w.ops[k]))
    requires SameElsewhere(dirs, dirs', s) && s in dirs' && dirs'[s].stale == {}
    requires forall i, j :: 0 <= i < j < |todo| ==> todo[i].id != todo[j].id
    ensures Progress(d0, d', dirs0, dirs', Elsewhere(todo, s))
  {
    SplitMembers(todo, s);
    var rest := Elsewhere(todo, s);
    forall x | x in rest ensures x in todo {
      var i :| 0 <= i < |rest| && rest[i] == x;
    }
    forall o | o in d0.ops ensures OpAt(d0, d', rest, o) {
      assert OpAt(d0, d, todo, o);
      ProgressOp(d0, d, d', todo, s, w, o);
    }
    forall t ensures SpaceAt(d0, dirs0, dirs', rest, t) { SpaceProgress(d0, d, dirs0, dirs, dirs', todo, s, t); }
  }

  lemma NotElsewhere(todo: seq<Due>, s: SpaceId, x: Due)
    requires forall i, j :: 0 <= i < j < |todo| ==> todo[i].id != todo[j].id
    requires x in todo && x.space == s
    ensures x.id !in Ids(Elsewhere(todo, s))
  {
    SplitMembers(todo, s);
    var rest := Elsewhere(todo, s);
    forall i | 0 <= i < |rest| ensures rest[i].id != x.id { assert rest[i] in todo; }
  }

  lemma SpaceProgress(d0: Db, d: Db, dirs0: Dirs, dirs: Dirs, dirs': Dirs, todo: seq<Due>, s: SpaceId, t: SpaceId)
    requires Progress(d0, d, dirs0, dirs, todo) && InSpace(todo, s) != []
    requires SameElsewhere(dirs, dirs', s) && s in dirs' && dirs'[s].stale == {}
    ensures SpaceAt(d0, dirs0, dirs', Elsewhere(todo, s), t)
  {
    SplitMembers(todo, s);
    var rest, here := Elsewhere(todo, s), InSpace(todo, s);
    assert forall x :: x in rest ==> exists i :: 0 <= i < |rest| && rest[i] == x;
    assert SpaceAt(d0, dirs0, dirs, todo, t);
    if t == s {
      assert here[0] in todo && here[0].space == s;
      assert PendingIn(d0.ops, s);
    } else {
      assert Awaits(rest, t) <==> Awaits(todo, t);
      forall o | o in d0.ops && d0.ops[o].space == t && o in Ids(todo) ensures o in Ids(rest) {
        forall i | 0 <= i < |here| ensures here[i].id != o { assert here[i] in todo; }
      }
    }
  }

  // ----- claiming -----

  predicate IsDue(op: Op, now: Time) { op.state.Pending? && op.due <= now }

  // The order of `due`: not before, then created, then id.
  predicate Sooner(ops: Ops, a: OpId, b: OpId)
    requires a in ops && b in ops
  {
    || ops[a].due < ops[b].due
    || (ops[a].due == ops[b].due && (ops[a].created < ops[b].created || (ops[a].created == ops[b].created && a < b)))
  }

  method Soonest(ops: Ops, among: set<OpId>) returns (first: OpId)
    requires among != {} && among <= ops.Keys
    ensures first in among && forall o :: o in among && o != first ==> Sooner(ops, first, o)
  {
    first :| first in among;
    var left := among - {first};
    while left != {}
      invariant left <= among && first in among
      invariant forall o :: o in among && o !in left && o != first ==> Sooner(ops, first, o)
      decreases left
    {
      var o :| o in left;
      if Sooner(ops, o, first) { first := o; }
      left := left - {o};
    }
  }

  // What was claimed is due, oldest first, and nothing due was passed over for something later.
  ghost predicate OldestFirst(ops: Ops, todo: seq<Due>, now: Time, limit: nat) {
    && |todo| <= limit
    && (forall i {:trigger todo[i]} :: 0 <= i < |todo| ==> todo[i].id in ops && IsDue(ops[todo[i].id], now))
    && (forall i, j | 0 <= i < j < |todo| && todo[i].id in ops && todo[j].id in ops :: Sooner(ops, todo[i].id, todo[j].id))
    && (forall o | o in ops && IsDue(ops[o], now) && o !in Ids(todo) :: PassedOver(ops, todo, limit, o))
  }

  ghost predicate PassedOver(ops: Ops, todo: seq<Due>, limit: nat, o: OpId)
    requires o in ops
  {
    |todo| == limit && forall i {:trigger todo[i]} :: 0 <= i < |todo| && todo[i].id in ops ==> Sooner(ops, todo[i].id, o)
  }

  // Half a claim: the soonest are listed, in order, and `left` are the due ones still to come.
  ghost predicate Claiming(d: Db, todo: seq<Due>, left: set<OpId>, now: Time) {
    && IsClaim(d, todo) && left !! Ids(todo)
    && (forall o :: o in d.ops && IsDue(d.ops[o], now) <==> o in left || o in Ids(todo))
    && (forall i, j | 0 <= i < j < |todo| && todo[i].id in d.ops && todo[j].id in d.ops :: Sooner(d.ops, todo[i].id, todo[j].id))
    && (forall i, o | 0 <= i < |todo| && o in left && todo[i].id in d.ops && o in d.ops :: Sooner(d.ops, todo[i].id, o))
  }

  lemma OneClaimed(d: Db, todo: seq<Due>, left: set<OpId>, now: Time, o: OpId)
    requires Claiming(d, todo, left, now) && o in left && o in d.ops
    requires forall p :: p in left && p in d.ops && p != o ==> Sooner(d.ops, o, p)
    ensures Claiming(d, todo + [Due(o, d.ops[o].rep, d.ops[o].space, d.ops[o].kind)], left - {o}, now)
  {
    IdsOfSnoc(todo, Due(o, d.ops[o].rep, d.ops[o].space, d.ops[o].kind));
    assert forall i :: 0 <= i < |todo| ==> todo[i].id in Ids(todo);
  }

  lemma ClaimedOldest(d: Db, todo: seq<Due>, left: set<OpId>, now: Time, limit: nat)
    requires Claiming(d, todo, left, now) && |todo| <= limit && (left == {} || |todo| == limit)
    ensures OldestFirst(d.ops, todo, now, limit)
  {
    assert forall i :: 0 <= i < |todo| ==> todo[i].id in Ids(todo);
    forall o | o in d.ops && IsDue(d.ops[o], now) && o !in Ids(todo) ensures PassedOver(d.ops, todo, limit, o) { assert o in left; }
  }

  // `_claim`: up to `limit` operations whose time has come, oldest due first.
  method Claim(library: Library, now: Time, limit: nat) returns (todo: seq<Due>)
    ensures IsClaim(library.session.Db(), todo) && OldestFirst(library.session.ops, todo, now, limit)
  {
    var ops := library.session.ops;
    ghost var d := library.session.Db();
    var left := set o | o in ops && IsDue(ops[o], now);
    todo := [];
    assert Ids(todo) == {};
    while left != {} && |todo| < limit
      invariant Claiming(d, todo, left, now) && |todo| <= limit && left <= ops.Keys
      decreases left
    {
      var o := Soonest(ops, left);
      OneClaimed(d, todo, left, now, o);
      todo := todo + [Due(o, ops[o].rep, ops[o].space, ops[o].kind)];
      left := left - {o};
    }
    ClaimedOldest(d, todo, left, now, limit);
  }

  lemma IdsOfSnoc(init: seq<Due>, x: Due)
    ensures Ids(init + [x]) == Ids(init) + {x.id}
  {
    assert (init + [x])[|init|].id == x.id;
    forall o | o in Ids(init) ensures o in Ids(init + [x]) {
      var i :| 0 <= i < |init| && init[i].id == o;
      assert (init + [x])[i].id == o;
    }
  }

  lemma {:induction false} DistinctIds(todo: seq<Due>)
    requires forall i, j :: 0 <= i < j < |todo| ==> todo[i].id != todo[j].id
    ensures |Ids(todo)| == |todo|
    decreases |todo|
  {
    if todo != [] {
      var init, x := todo[..|todo| - 1], todo[|todo| - 1];
      assert todo == init + [x];
      DistinctIds(init);
      IdsOfSnoc(init, x);
      assert x.id !in Ids(init);
    }
  }

  function PendingOps(ops: Ops): set<OpId> { set o | o in ops && ops[o].state.Pending? }

  // A limit that admits everything PENDING leaves nothing out once every backoff has elapsed.
  lemma ClaimsAll(d: Db, todo: seq<Due>, now: Time, limit: nat)
    requires IsClaim(d, todo) && OldestFirst(d.ops, todo, now, limit) && |PendingOps(d.ops)| <= limit
    requires forall o :: o in d.ops && d.ops[o].state.Pending? ==> d.ops[o].due <= now
    ensures forall o :: o in d.ops && d.ops[o].state.Pending? ==> o in Ids(todo)
  {
    DistinctIds(todo);
    var pending := PendingOps(d.ops);
    assert Ids(todo) <= pending;
    forall o | o in pending ensures o in Ids(todo) {
      if o !in Ids(todo) {
        assert PassedOver(d.ops, todo, limit, o);
        Smaller(Ids(todo), pending, o);
      }
    }
  }

  lemma Smaller(a: set<OpId>, b: set<OpId>, o: OpId)
    requires a <= b && o in b && o !in a
    ensures |a| < |b|
  {
    assert |b - a| == |b| - |a| && o in b - a;
  }

  // Everything PENDING is settled: applied, but for vectors no index can hold; every space with a
  // PENDING operation is left without a superseded file, and no other space is touched.
  method ApplyPending(library: Library, limit: nat, now: Time, retry: RetryPolicy)
    requires Inv(library.State(Idle)) && |PendingOps(library.session.ops)| <= limit
    requires forall o :: o in library.session.ops && library.session.ops[o].state.Pending? ==> library.session.ops[o].due <= now
    modifies library`dirs, library.session`ops
    ensures Inv(library.State(Idle))
    ensures Passed(old(library.session.Db()), library.session.Db())
    ensures forall s {:trigger PendingIn(old(library.session.ops), s)} ::
      if PendingIn(old(library.session.ops), s) then library.Directory(s).stale == {}
      else library.Directory(s) == old(library.Directory(s))
  {
    var todo := Claim(library, now, limit);
    ghost var d0, dirs0 := library.session.Db(), library.dirs;
    ClaimsAll(d0, todo, now, limit);
    LockStepKeepsInv(library.State(Idle), library.State(Pass(todo, None)), Step.Claim(todo));
    assert Progress(d0, library.session.Db(), dirs0, library.dirs, todo) by { Claimed(d0, dirs0, todo); }
    while todo != []
      invariant Inv(library.State(Pass(todo, None)))
      invariant Progress(d0, library.session.Db(), dirs0, library.dirs, todo)
      decreases |todo|
    {
      todo := ApplySpace(library, todo, now, retry, d0, dirs0);
    }
    LockStepKeepsInv(library.State(Pass([], None)), library.State(Idle), EndPass);
    forall s {:trigger PendingIn(d0.ops, s)}
      ensures if PendingIn(d0.ops, s) then library.Directory(s).stale == {}
              else library.Directory(s) == if s in dirs0 then dirs0[s] else ABSENT
    {
      assert SpaceAt(d0, dirs0, library.dirs, [], s);
    }
    forall o | o in d0.ops ensures PassedOp(d0.rows, d0.ops[o], library.session.ops[o]) {
      assert OpAt(d0, library.session.Db(), [], o);
    }
  }

  // The first space of what is still to do.
  method ApplySpace(library: Library, todo: seq<Due>, now: Time, retry: RetryPolicy, ghost d0: Db, ghost dirs0: Dirs)
    returns (rest: seq<Due>)
    requires todo != [] && Inv(library.State(Pass(todo, None))) && Progress(d0, library.session.Db(), dirs0, library.dirs, todo)
    modifies library`dirs, library.session`ops
    ensures Inv(library.State(Pass(rest, None))) && Progress(d0, library.session.Db(), dirs0, library.dirs, rest)
    ensures |rest| < |todo|
  {
    var s := todo[0].space;
    var ops := InSpace(todo, s);
    rest := Elsewhere(todo, s);
    SplitMembers(todo, s);
    assert |ops| > 0;
    LockStepKeepsInv(library.State(Pass(todo, None)), library.State(Pass(rest, Some(NewWork(s, ops)))), Begin(s));
    ghost var d, dirs := library.session.Db(), library.dirs;
    assert forall i, j :: 0 <= i < j < |todo| ==> todo[i].id != todo[j].id;
    var w := library.ApplyIndex(s, rest, ops);
    library.Settle(rest, w, now, retry);
    ProgressSpace(d0, d, library.session.Db(), dirs0, dirs, library.dirs, todo, s, w);
  }

  lemma Claimed(d: Db, dirs: Dirs, todo: seq<Due>)
    requires IsClaim(d, todo) && forall o :: o in d.ops && d.ops[o].state.Pending? ==> o in Ids(todo)
    ensures Progress(d, d, dirs, dirs, todo)
  {
    forall s | PendingIn(d.ops, s) ensures Awaits(todo, s) {
      var o :| o in d.ops && d.ops[o].state.Pending? && d.ops[o].space == s;
      var i :| 0 <= i < |todo| && todo[i].id == o;
      assert todo[i] in todo;
    }
  }
}
