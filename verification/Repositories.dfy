/** The repositories: statements over one session's tables. They join the caller's transaction; an
    error is the caller's rollback, so it leaves the tables as they were. */
module Repositories {
  import opened Store
  import opened IndexQueue

  class Session {
    var rows: Rows
    var ops: Ops
    var nextOp: OpId
    var nextKey: map<SpaceId, Key>
    var marker: Option<Token>
    var nextToken: Token

    constructor (db: Db)
      ensures this.Db() == db
    {
      rows, ops, nextOp, nextKey := db.rows, db.ops, db.nextOp, db.nextKey;
      marker, nextToken := db.marker, db.nextToken;
    }

    function Db(): Db
      reads this
    {
      Store.Db(rows, ops, nextOp, nextKey, marker, nextToken)
    }
  }

  // `append_batch`. False is the database's IntegrityError: a representation that does not exist.
  method AppendBatch(session: Session, batch: seq<NewOp>, now: Time) returns (ok: bool, recorded: seq<OpId>)
    modifies session`ops, session`nextOp
    ensures ok <==> forall i :: 0 <= i < |batch| ==> batch[i].rep in session.rows
    ensures ok ==> session.ops == AppendAll(old(session.ops), old(session.nextOp), batch, now)
    ensures ok ==> session.nextOp == old(session.nextOp) + |batch|
    ensures ok ==> forall o :: o in session.ops && o !in old(session.ops) ==> o in recorded
    ensures !ok ==> session.ops == old(session.ops) && session.nextOp == old(session.nextOp) && recorded == []
  {
    var opsBefore, nextBefore := session.ops, session.nextOp;
    recorded := [];
    var i := 0;
    while i < |batch|
      invariant 0 <= i <= |batch|
      invariant forall j :: 0 <= j < i ==> batch[j].rep in session.rows
      invariant session.ops == AppendAll(opsBefore, nextBefore, batch[..i], now)
      invariant session.nextOp == nextBefore + i
      invariant forall o :: o in session.ops && o !in opsBefore ==> o in recorded
    {
      var n := batch[i];
      if n.rep !in session.rows {
        session.ops, session.nextOp := opsBefore, nextBefore;
        return false, [];
      }
      assert batch[..i + 1][..i] == batch[..i];
      session.ops := Withdraw(session.ops, n.rep, Opposite(n.kind));
      if !HasPending(session.ops, n.rep, n.kind) {
        session.ops := session.ops[session.nextOp := Fresh(n, now)];
        recorded := recorded + [session.nextOp];
      }
      session.nextOp := session.nextOp + 1;
      i := i + 1;
    }
    assert batch[..i] == batch;
    ok := true;
  }

  // `requeue`: only a FAILED operation, and only if nothing PENDING already says the same thing.
  method Requeue(session: Session, id: OpId, now: Time) returns (done: bool)
    modifies session`ops
    ensures done <==> id in old(session.ops) && old(session.ops)[id].state.Failed?
                      && !HasPending(old(session.ops), old(session.ops)[id].rep, old(session.ops)[id].kind)
    ensures session.ops == if done then old(session.ops)[id := RequeuedOp(old(session.ops)[id], now)] else old(session.ops)
  {
    done := id in session.ops && session.ops[id].state.Failed?
            && !HasPending(session.ops, session.ops[id].rep, session.ops[id].kind);
    if done {
      session.ops := session.ops[id := RequeuedOp(session.ops[id], now)];
    }
  }

  function RequeuedOp(op: Op, now: Time): Op { op.(state := OpState.Pending, attempts := 0, due := now) }

  // `set` and `clear` of the marker; a clear with the value read before the checkpoint leaves a
  // marker that was set again meanwhile.
  method SetMarker(session: Session) returns (token: Token)
    modifies session`marker, session`nextToken
    ensures token == old(session.nextToken) && session.marker == Some(token) && session.nextToken == token + 1
  {
    token := session.nextToken;
    session.marker, session.nextToken := Some(token), token + 1;
  }

  method ClearMarker(session: Session, value: Option<Token>) returns (cleared: bool)
    modifies session`marker
    ensures cleared <==> old(session.marker).Some? && (value.Some? ==> value == old(session.marker))
    ensures session.marker == if cleared then None else old(session.marker)
  {
    cleared := session.marker.Some? && (value.None? || value == session.marker);
    if cleared { session.marker := None; }
  }
}
