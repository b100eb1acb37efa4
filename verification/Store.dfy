/** The rows the erasure protocol is about: representations, the durable index queue, the per-space
    key sequence and the log-truncation marker. */
module Store {
  datatype Option<+T> = None | Some(value: T)

  type RepId = nat
  type SpaceId = nat
  type Key = nat
  type OpId = nat
  type Token = nat
  type Time = nat

  datatype RepState = Pending | Active | Superseded | Erasing | Erased | Deleted

  // Whether the stored bytes decode to finite numbers; the schema fixes their length.
  datatype Vector = Vector(finite: bool)

  // `ownerActive`: the representation has no identity, or its identity is ACTIVE (the outer join
  // the coordinator makes).
  datatype Row = Row(space: SpaceId, state: RepState, key: Option<Key>, vector: Option<Vector>, ownerActive: bool)
  {
    // What a rebuild of the space's index is made of.
    predicate Eligible() { state.Active? && ownerActive }

    predicate Indexable() { Eligible() && key.Some? && vector == Some(Vector(true)) }
  }

  datatype Kind = Add | Remove
  datatype OpState = Pending | Applied | Failed

  datatype Op = Op(rep: RepId, space: SpaceId, kind: Kind, state: OpState, attempts: nat, due: Time, created: Time)
  {
    // Recorded and not yet applied.
    predicate Open() { state.Pending? || state.Failed? }
  }

  type Rows = map<RepId, Row>
  type Ops = map<OpId, Op>

  // `nextOp` and `nextToken` stand for the id source: a value drawn is never drawn again.
  datatype Db = Db(rows: Rows, ops: Ops, nextOp: OpId, nextKey: map<SpaceId, Key>,
                   marker: Option<Token>, nextToken: Token)

  predicate Erasable(state: RepState) { state.Active? || state.Pending? || state.Superseded? }

  // The representations whose vector bytes the rows hold.
  function Holders(rows: Rows): set<RepId> { set r | r in rows && rows[r].vector.Some? }

  predicate IsOp(op: Op, rep: RepId, kind: Kind) { op.rep == rep && op.kind == kind }

  predicate HasOp(ops: Ops, rep: RepId, kind: Kind) {
    exists o :: o in ops && IsOp(ops[o], rep, kind)
  }

  predicate HasPending(ops: Ops, rep: RepId, kind: Kind) {
    exists o :: o in ops && IsOp(ops[o], rep, kind) && ops[o].state.Pending?
  }

  // An open operation outside `settled`.
  predicate HasOpen(ops: Ops, rep: RepId, kind: Kind, settled: set<OpId>) {
    exists o :: o in ops && o !in settled && IsOp(ops[o], rep, kind) && ops[o].Open()
  }

  predicate HasApplied(ops: Ops, rep: RepId, kind: Kind) {
    exists o :: o in ops && IsOp(ops[o], rep, kind) && ops[o].state.Applied?
  }

  // `_removal_done`: a REMOVE applied and none open.
  predicate RemovalDone(ops: Ops, rep: RepId) {
    HasApplied(ops, rep, Remove) && !HasOpen(ops, rep, Remove, {})
  }

  // The schema's partial unique index: one PENDING operation per representation and kind.
  predicate OnePending(ops: Ops) {
    forall o, p | o in ops && p in ops && ops[o].state.Pending? && ops[p].state.Pending?
      :: ops[o].rep == ops[p].rep && ops[o].kind == ops[p].kind ==> o == p
  }

  predicate IdsBelow(ops: Ops, next: OpId) { forall o :: o in ops ==> o < next }

  function NextKey(nextKey: map<SpaceId, Key>, space: SpaceId): Key {
    if space in nextKey then nextKey[space] else 1
  }
}
