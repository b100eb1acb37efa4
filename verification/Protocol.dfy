/** The erasure protocol as steps: SQLite commits, coordinator passes under one lock, finalization,
    truncation of the write-ahead log, faults and crashes, interleaved in any order. */
module Protocol {
  import opened Store
  import opened IndexQueue

  // A generation of a space's index: the keys it answers with, and every vector whose bytes are in
  // its file. An in-place remove takes a key out of the first only.
  datatype Generation = Generation(live: map<Key, RepId>, bytes: set<RepId>)

  // `current` is what the manifest on disk names. A superseded or quarantined file, or one an
  // interrupted persist left, is what it holds; a staged manifest left behind holds no vector.
  datatype Directory = Directory(current: Option<Generation>, usable: bool,
                                 stale: set<set<RepId>>, quarantine: set<set<RepId>>)

  datatype Due = Due(id: OpId, rep: RepId, space: SpaceId, kind: Kind)

  // Where one space's work stands: index not opened; entries read for a rebuild of an unusable
  // index; operations applied so far; entries read for a purge; operations applied again; outcomes
  // final.
  datatype Phase = Opening | Rebuilding | Applying(i: nat) | Purging | Reapplying(j: nat) | Settling

  // `synced`: the index in memory is what the directory's current file holds. `done`: outcome None
  // and effect in the index; `failed`: outcome an error.
  datatype Work = Work(space: SpaceId, ops: seq<Due>, phase: Phase, mem: Generation, synced: bool,
                       purge: bool, done: set<OpId>, failed: set<OpId>)

  // Who holds the coordinator's lock.
  datatype Coordinator =
    | Idle
    | Pass(todo: seq<Due>, work: Option<Work>)
    | Listing(space: SpaceId, keyless: set<RepId>, removed: set<RepId>)
    | Clearing(space: SpaceId, ready: set<RepId>)

  // An eraser call after its summary: `erased` are the representations it saw ERASED.
  datatype Call =
    | Summarized(erased: set<RepId>)
    | Owed(erased: set<RepId>, token: Token)
    | Checkpointed(erased: set<RepId>, token: Token)
    | Truncated(erased: set<RepId>)

  // `log`: the vectors whose bytes the write-ahead log holds.
  datatype System = System(db: Db, log: set<RepId>, dirs: map<SpaceId, Directory>,
                           coord: Coordinator, calls: map<nat, Call>)

  const NOTHING := Generation(map[], {})
  const ABSENT := Directory(None, false, {}, {})

  function Dir(y: System, s: SpaceId): Directory { if s in y.dirs then y.dirs[s] else ABSENT }

  // ----- what a pass does to the index in memory -----

  // A build from SQLite: exactly the space's indexable representations, each under its key.
  ghost predicate Built(rows: Rows, s: SpaceId, g: Generation) {
    && (forall r :: r in g.bytes <==> r in rows && rows[r].space == s && rows[r].Indexable())
    && (forall k :: k in g.live ==> g.live[k] in g.bytes && rows[g.live[k]].key == Some(k))
    && (forall r :: r in g.bytes ==> rows[r].key.value in g.live && g.live[rows[r].key.value] == r)
  }

  datatype Effect = Unchanged | Changed(mem: Generation) | Purge | Error

  // `_apply_one`: re-read the representation and make the index match.
  function ApplyOne(rows: Rows, mem: Generation, op: Due): Effect {
    if op.rep !in rows || rows[op.rep].space != op.space then Error
    else
      var row := rows[op.rep];
      if op.kind.Remove? then
        if row.key.None? || row.state.Erasing? then Purge
        else if row.key.value in mem.live then Changed(mem.(live := mem.live - {row.key.value}))
        else Unchanged
      else if !row.Eligible() then Unchanged
      else if !row.Indexable() then Error
      else if row.key.value in mem.live then Unchanged
      else Changed(Generation(mem.live[row.key.value := op.rep], mem.bytes + {op.rep}))
  }

  // The work after its next operation was applied; `again` in the rebuilt index, where a PURGE is
  // already done and an error fails the space.
  function AfterApply(rows: Rows, w: Work, op: Due, next: Phase, again: bool): Work {
    match ApplyOne(rows, w.mem, op)
    case Unchanged => w.(phase := next, done := w.done + {op.id})
    case Changed(mem) => w.(phase := next, mem := mem, synced := false, done := w.done + {op.id})
    case Purge => if again then w.(phase := next, done := w.done + {op.id}) else w.(phase := next, purge := true)
    case Error => if again then AfterFailure(w) else w.(phase := next, failed := w.failed + {op.id})
  }

  predicate CanApply(w: Work) {
    (w.phase.Applying? && w.phase.i < |w.ops|) || (w.phase.Reapplying? && w.phase.j < |w.ops|)
  }

  function ApplyNext(rows: Rows, w: Work): Work
    requires CanApply(w)
  {
    if w.phase.Applying? then AfterApply(rows, w, w.ops[w.phase.i], Applying(w.phase.i + 1), false)
    else if w.ops[w.phase.j].id in w.failed then w.(phase := Reapplying(w.phase.j + 1))
    else AfterApply(rows, w, w.ops[w.phase.j], Reapplying(w.phase.j + 1), true)
  }

  // An exception fails the whole space's batch.
  function AfterFailure(w: Work): Work { w.(phase := Settling, done := {}) }

  function RemoveIds(ops: seq<Due>): set<OpId> { set i | 0 <= i < |ops| && ops[i].kind.Remove? :: ops[i].id }

  function Ids(ops: seq<Due>): set<OpId> { set i | 0 <= i < |ops| :: ops[i].id }

  // Loading the current file; leftovers that are not locked are removed.
  ghost predicate Opened(dir: Directory, dir': Directory, w: Work, w': Work) {
    && dir.current.Some? && dir.usable
    && dir' == dir.(stale := dir'.stale) && dir'.stale <= dir.stale
    && w' == w.(phase := Applying(0), mem := dir.current.value, synced := true)
  }

  // An unusable index's files go to quarantine; a locked one stays where it is.
  ghost predicate Quarantined(dir: Directory, dir': Directory) {
    var files := dir.stale + (if dir.current.Some? then {dir.current.value.bytes} else {});
    && !(dir.current.Some? && dir.usable)
    && dir'.usable == dir.usable
    && (dir'.current == dir.current || dir'.current.None?)
    && dir'.stale <= files && dir.quarantine <= dir'.quarantine <= dir.quarantine + files
    && (forall f :: f in files ==> f in dir'.stale || f in dir'.quarantine
                                   || (dir'.current.Some? && dir'.current.value.bytes == f))
  }

  // The new generation is current; the old one is superseded, and goes unless it is locked.
  ghost predicate Persisted(dir: Directory, dir': Directory, mem: Generation) {
    && dir'.current == Some(mem) && dir'.usable && dir'.quarantine == dir.quarantine
    && dir'.stale <= dir.stale + (if dir.current.Some? then {dir.current.value.bytes} else {})
  }

  // A crash or error after the file was written, and perhaps its manifest staged, and before the
  // manifest named it.
  function Torn(dir: Directory, mem: Generation, staged: bool): Directory {
    dir.(stale := dir.stale + {mem.bytes} + if staged then {{}} else {})
  }

  ghost predicate MustPersist(w: Work) {
    || w.phase.Rebuilding? || w.phase.Purging?
    || (!w.synced && ((w.phase == Applying(|w.ops|) && !w.purge) || w.phase == Reapplying(|w.ops|)))
  }

  function AfterPersist(w: Work): Work {
    w.(synced := true,
       phase := if w.phase.Rebuilding? then Applying(0) else if w.phase.Purging? then Reapplying(0) else w.phase)
  }

  // `_require_retired`, and the last check of `_purge`.
  function AfterRetireCheck(dir: Directory, w: Work): Work {
    if dir.stale == {} then w.(phase := Settling)
    else if w.phase.Reapplying? then AfterFailure(w)
    else w.(phase := Settling, done := w.done - RemoveIds(w.ops))
  }

  // `_settle_in_transaction`: only operations still PENDING; an error is retried or out of attempts.
  ghost predicate SettledOp(op: Op, op': Op, applied: bool) {
    && op' == op.(state := op'.state, attempts := op.attempts + 1, due := op'.due)
    && if applied then op'.state.Applied? && op'.due == op.due else op'.Open()
  }

  ghost predicate Settled(d: Db, d': Db, w: Work) {
    && d' == d.(ops := d'.ops) && d'.ops.Keys == d.ops.Keys
    && forall o :: o in d.ops ==>
         if o in Ids(w.ops) && d.ops[o].state.Pending? then SettledOp(d.ops[o], d'.ops[o], o in w.done)
         else d'.ops[o] == d.ops[o]
  }

  ghost predicate IsClaim(d: Db, ops: seq<Due>) {
    && (forall i :: 0 <= i < |ops| ==> ops[i].id in d.ops && d.ops[ops[i].id].state.Pending? && Names(d, ops[i]))
    && (forall i, j :: 0 <= i < j < |ops| ==> ops[i].id != ops[j].id)
  }

  // The copy a claim made of an operation, if the operation is still there.
  ghost predicate Names(d: Db, op: Due) {
    op.id in d.ops ==> var q := d.ops[op.id]; op.rep == q.rep && op.space == q.space && op.kind == q.kind
  }

  function InSpace(ops: seq<Due>, s: SpaceId): seq<Due> {
    if ops == [] then []
    else if ops[0].space == s then [ops[0]] + InSpace(ops[1..], s) else InSpace(ops[1..], s)
  }

  function Elsewhere(ops: seq<Due>, s: SpaceId): seq<Due> {
    if ops == [] then []
    else if ops[0].space == s then Elsewhere(ops[1..], s) else [ops[0]] + Elsewhere(ops[1..], s)
  }

  function NewWork(s: SpaceId, ops: seq<Due>): Work { Work(s, ops, Opening, NOTHING, false, false, {}, {}) }

  // ----- the eraser's own transactions -----

  // `_queue`, after `queue_in` took the DELETED ones when `takeDeleted`: the erasable ones are
  // ERASING, their open REMOVEs are replaced by fresh ones, an ERASING representation without any
  // REMOVE gets one and its FAILED ones are requeued, all in one commit.
  predicate MovedToErasing(rows: Rows, r: RepId, ids: set<RepId>, takeDeleted: bool) {
    r in ids && r in rows && (Erasable(rows[r].state) || (takeDeleted && rows[r].state.Deleted?))
  }

  function ErasingRows(rows: Rows, ids: set<RepId>, takeDeleted: bool): Rows {
    map r | r in rows :: if MovedToErasing(rows, r, ids, takeDeleted) then rows[r].(state := Erasing) else rows[r]
  }

  // The REMOVEs that go: the open ones of what was erasable, every one of what was DELETED.
  ghost predicate Displaced(rows: Rows, op: Op, ids: set<RepId>, takeDeleted: bool) {
    && op.kind.Remove? && MovedToErasing(rows, op.rep, ids, takeDeleted) && rows[op.rep].key.Some?
    && (op.Open() || rows[op.rep].state.Deleted?)
  }

  // The representations that get a fresh REMOVE.
  ghost predicate NeedsRemove(d: Db, r: RepId, ids: set<RepId>, takeDeleted: bool) {
    && r in d.rows && d.rows[r].key.Some?
    && if MovedToErasing(d.rows, r, ids, takeDeleted) then
         Erasable(d.rows[r].state) || d.rows[r].state.Deleted?
       else d.rows[r].state.Erasing? && !HasOp(d.ops, r, Remove)
  }

  ghost predicate Revived(op: Op, op': Op) { op' == op.(state := OpState.Pending, attempts := 0, due := op'.due) }

  predicate IsErasing(rows: Rows, r: RepId) { r in rows && rows[r].state.Erasing? }

  // An operation from before stays, unless it is displaced or is a PENDING ADD in the way of a
  // fresh REMOVE; a FAILED REMOVE of what is ERASING may be requeued.
  ghost predicate OldOpQueued(d: Db, ops': Ops, ids: set<RepId>, takeDeleted: bool, o: OpId)
    requires o in d.ops
  {
    if o in ops' then
      && !Displaced(d.rows, d.ops[o], ids, takeDeleted)
      && (ops'[o] == d.ops[o] || (d.ops[o].state.Failed? && d.ops[o].kind.Remove? && Revived(d.ops[o], ops'[o])
                                  && IsErasing(ErasingRows(d.rows, ids, takeDeleted), d.ops[o].rep)))
    else
      || Displaced(d.rows, d.ops[o], ids, takeDeleted)
      || (d.ops[o].kind.Add? && d.ops[o].state.Pending? && NeedsRemove(d, d.ops[o].rep, ids, takeDeleted))
  }

  // A new one is a PENDING REMOVE that was needed, the only new one for its representation.
  ghost predicate NewOpQueued(d: Db, ops': Ops, ids: set<RepId>, takeDeleted: bool, o: OpId)
    requires o in ops'
  {
    && ops'[o].kind.Remove? && ops'[o].state.Pending? && NeedsRemove(d, ops'[o].rep, ids, takeDeleted)
    && ops'[o].space == d.rows[ops'[o].rep].space
    && forall p :: p in ops' && d.nextOp <= p && ops'[p].rep == ops'[o].rep ==> p == o
  }

  ghost predicate ErasureQueued(d: Db, d': Db, ids: set<RepId>, takeDeleted: bool) {
    && d' == d.(rows := ErasingRows(d.rows, ids, takeDeleted), ops := d'.ops, nextOp := d'.nextOp)
    && d.nextOp <= d'.nextOp && IdsBelow(d'.ops, d'.nextOp)
    && (forall o {:trigger OldOpQueued(d, d'.ops, ids, takeDeleted, o)} :: o in d.ops ==> OldOpQueued(d, d'.ops, ids, takeDeleted, o))
    && (forall o :: o in d'.ops && o < d.nextOp ==> o in d.ops)
    && (forall o {:trigger NewOpQueued(d, d'.ops, ids, takeDeleted, o)} ::
          o in d'.ops && d.nextOp <= o ==> NewOpQueued(d, d'.ops, ids, takeDeleted, o))
    && (forall r {:trigger NeedsRemove(d, r, ids, takeDeleted)} :: NeedsRemove(d, r, ids, takeDeleted) ==> HasPending(d'.ops, r, Remove))
    && (forall o | o in d'.ops && d'.ops[o].kind.Remove? && d'.ops[o].state.Failed? && d'.ops[o].rep in d'.rows ::
          d'.rows[d'.ops[o].rep].state.Erasing? ==> HasPending(d'.ops, d'.ops[o].rep, Remove))
  }

  // `_clear`: the ready ones lose vector and key, and the marker gets a value of its own.
  function ClearedRows(rows: Rows, ready: set<RepId>): Rows {
    map r | r in rows ::
      if r in ready && rows[r].state.Erasing? then rows[r].(state := Erased, vector := None, key := None)
      else rows[r]
  }

  function Cleared(d: Db, ready: set<RepId>): Db {
    d.(rows := ClearedRows(d.rows, ready), marker := Some(d.nextToken), nextToken := d.nextToken + 1)
  }

  // ----- commits of other callers -----

  datatype Commit =
    | Insert(rep: RepId, space: SpaceId, vector: Vector)
    | Activate(rep: RepId, now: Time)
    | Retire(rep: RepId, to: RepState, now: Time)
    | EditOwners(rows: Rows)
    | QueueErasure(ids: set<RepId>, takeDeleted: bool)
    | RequeueFailed(id: OpId, now: Time)
    | OweTruncation

  function RemoveOf(d: Db, r: RepId): NewOp
    requires r in d.rows
  {
    NewOp(r, d.rows[r].space, Remove)
  }

  ghost predicate Committed(d: Db, d': Db, c: Commit) {
    match c
    case Insert(r, s, v) =>
      r !in d.rows && d' == d.(rows := d.rows[r := Row(s, RepState.Pending, None, Some(v), true)])
    case Activate(r, now) =>
      // a PENDING representation becomes ANN-eligible: a fresh key and an ADD
      && r in d.rows && d.rows[r].state.Pending?
      && var s := d.rows[r].space;
         d' == d.(rows := d.rows[r := d.rows[r].(state := Active, key := Some(NextKey(d.nextKey, s)), ownerActive := true)],
                  ops := d.ops[d.nextOp := Fresh(NewOp(r, s, Add), now)], nextOp := d.nextOp + 1,
                  nextKey := d.nextKey[s := NextKey(d.nextKey, s) + 1])
    case Retire(r, to, now) =>
      // a representation stops being eligible: a REMOVE if it was, nothing if it was not indexed
      && r in d.rows && (to.Superseded? || to.Deleted?)
      && if d.rows[r].state.Active? then
           d' == d.(rows := d.rows[r := d.rows[r].(state := to)],
                    ops := Append(d.ops, d.nextOp, RemoveOf(d, r), now), nextOp := d.nextOp + 1)
         else
           && (d.rows[r].state.Pending? || d.rows[r].state.Superseded?)
           && d' == d.(rows := d.rows[r := d.rows[r].(state := to)])
    case EditOwners(rows) =>
      // ownership moves; no representation's eligibility does
      && rows.Keys == d.rows.Keys && d' == d.(rows := rows)
      && forall r :: r in rows ==>
           rows[r] == d.rows[r].(ownerActive := rows[r].ownerActive) && (rows[r].Eligible() <==> d.rows[r].Eligible())
    case QueueErasure(ids, takeDeleted) => ErasureQueued(d, d', ids, takeDeleted)
    case RequeueFailed(id, now) =>
      && id in d.ops && d.ops[id].state.Failed? && !HasPending(d.ops, d.ops[id].rep, d.ops[id].kind)
      && d' == d.(ops := d.ops[id := d.ops[id].(state := OpState.Pending, attempts := 0, due := now)])
    case OweTruncation => d' == d.(marker := Some(d.nextToken), nextToken := d.nextToken + 1)
  }

  // ----- steps -----

  datatype Step =
    | Other(commit: Commit)
    | Claim(ops: seq<Due>) | Begin(s: SpaceId) | Validate(s: SpaceId)
    | Open | Quarantine | ReadEntries | Persist | PersistTorn(staged: bool) | Apply | ApplyError | RetireCheck
    | Fail | Settle | EndPass | Abort
    | ListSpace(s: SpaceId) | CheckFiles | Clear | Unlock
    | Summarize(call: nat, ids: set<RepId>) | ReadMarker(call: nat) | Checkpoint(call: nat) | ClearMarker(call: nat)
    | Damage(s: SpaceId) | LoseManifest(s: SpaceId) | Crash

  // A commit may put into the log the bytes of any vector a row held before or holds after it.
  ghost predicate DbOnly(y: System, y': System) {
    && y' == y.(db := y'.db, log := y'.log)
    && y'.log <= y.log + Holders(y.db.rows) + Holders(y'.db.rows)
  }

  function WithDir(y: System, s: SpaceId, dir: Directory): System { y.(dirs := y.dirs[s := dir]) }

  function WithWork(y: System, w: Work): System
    requires y.coord.Pass?
  {
    y.(coord := y.coord.(work := Some(w)))
  }

  ghost predicate Working(y: System) { y.coord.Pass? && y.coord.work.Some? }

  ghost predicate CanReadEntries(dir: Directory, w: Work) {
    || (w.phase.Opening? && !(dir.current.Some? && dir.usable))
    || (w.phase == Applying(|w.ops|) && (w.purge || w.ops == []))
  }

  ghost predicate WorkStep(y: System, y': System, st: Step)
    requires Working(y)
  {
    var w := y.coord.work.value;
    var s := w.space;
    var dir := Dir(y, s);
    match st
    case Open => w.phase.Opening? && Working(y')
        && Opened(dir, Dir(y', s), w, y'.coord.work.value) && y' == WithWork(WithDir(y, s, Dir(y', s)), y'.coord.work.value)
    case Quarantine => w.phase.Opening? && Quarantined(dir, Dir(y', s)) && y' == WithDir(y, s, Dir(y', s))
    case ReadEntries => CanReadEntries(dir, w) && Working(y')
        && Built(y.db.rows, s, y'.coord.work.value.mem)
        && y' == WithWork(y, w.(mem := y'.coord.work.value.mem, synced := false, done := {},
                                phase := if w.phase.Opening? then Rebuilding else Purging))
    case Persist => MustPersist(w) && Persisted(dir, Dir(y', s), w.mem)
        && y' == WithWork(WithDir(y, s, Dir(y', s)), AfterPersist(w))
    case PersistTorn(staged) => MustPersist(w) && y' == WithDir(y, s, Torn(dir, w.mem, staged))
    case Apply => CanApply(w) && y' == WithWork(y, ApplyNext(y.db.rows, w))
    case ApplyError => w.phase.Applying? && w.phase.i < |w.ops|
        && y' == WithWork(y, w.(phase := Applying(w.phase.i + 1), failed := w.failed + {w.ops[w.phase.i].id}))
    case RetireCheck => w.synced && ((w.phase == Applying(|w.ops|) && !w.purge) || w.phase == Reapplying(|w.ops|))
        && y' == WithWork(y, AfterRetireCheck(dir, w))
    case Fail => y' == WithWork(y, AfterFailure(w))
    case Settle => w.phase.Settling? && Settled(y.db, y'.db, w)
        && DbOnly(y, y'.(coord := y.coord)) && y'.coord == y.coord.(work := None)
    case _ => false
  }

  ghost predicate CallStep(y: System, y': System, st: Step) {
    match st
    case Summarize(c, ids) => c !in y.calls
        && y' == y.(calls := y.calls[c := Summarized(set r | r in ids && r in y.db.rows && y.db.rows[r].state.Erased?)])
    case ReadMarker(c) => c in y.calls && y.calls[c].Summarized?
        && y' == y.(calls := y.calls[c := if y.db.marker.None? then Truncated(y.calls[c].erased)
                                          else Owed(y.calls[c].erased, y.db.marker.value)])
    case Checkpoint(c) => c in y.calls && y.calls[c].Owed?
        && y' == y.(log := {}, calls := y.calls[c := Checkpointed(y.calls[c].erased, y.calls[c].token)])
    case ClearMarker(c) => c in y.calls && y.calls[c].Checkpointed?
        && var cleared := y.db.marker == Some(y.calls[c].token);
           var db := y.db.(marker := if cleared then None else y.db.marker);
           && y'.log <= y.log + Holders(y.db.rows)
           && y' == y.(db := db, log := y'.log, calls := y.calls[c := Truncated(y.calls[c].erased)])
    case _ => false
  }

  ghost predicate LockStep(y: System, y': System, st: Step) {
    match st
    case Other(c) => Committed(y.db, y'.db, c) && DbOnly(y, y')
    case Claim(ops) => y.coord.Idle? && IsClaim(y.db, ops) && y' == y.(coord := Pass(ops, None))
    case Begin(s) => y.coord.Pass? && y.coord.work.None? && InSpace(y.coord.todo, s) != []
        && y' == y.(coord := Pass(Elsewhere(y.coord.todo, s), Some(NewWork(s, InSpace(y.coord.todo, s)))))
    case Validate(s) => y.coord.Idle? && y' == y.(coord := Pass([], Some(NewWork(s, []))))
    case EndPass => y.coord.Pass? && y.coord.work.None? && y' == y.(coord := Idle)
    // a pass an exception ends: what it has not settled stays as it was claimed
    case Abort => y.coord.Pass? && y' == y.(coord := Idle)
    case ListSpace(s) => y.coord.Idle? && var rows := y.db.rows;
        y' == y.(coord := Listing(s,
          set r | r in rows && rows[r].space == s && rows[r].state.Erasing? && rows[r].key.None?,
          set r | r in rows && rows[r].space == s && rows[r].state.Erasing? && rows[r].key.Some? && RemovalDone(y.db.ops, r)))
    case CheckFiles => y.coord.Listing?
        && var s, keyless, removed := y.coord.space, y.coord.keyless, y.coord.removed;
           if removed == {} then y' == y.(coord := Clearing(s, keyless))
           else
             var dir' := Dir(y', s);
             && dir'.quarantine <= Dir(y, s).quarantine && dir' == Dir(y, s).(quarantine := dir'.quarantine)
             && y' == WithDir(y, s, dir').(coord := Clearing(s,
                  if dir'.stale == {} && dir'.quarantine == {} then keyless + removed else keyless))
    case Clear => y.coord.Clearing? && y'.db == Cleared(y.db, y.coord.ready)
        && DbOnly(y, y'.(coord := y.coord)) && y'.coord == Idle
    case Unlock => (y.coord.Listing? || y.coord.Clearing?) && y' == y.(coord := Idle)
    case Damage(s) => y' == WithDir(y, s, Dir(y, s).(usable := false))
    case LoseManifest(s) =>
      var dir := Dir(y, s);
      y' == WithDir(y, s, if dir.current.None? then dir
                          else dir.(current := None, stale := dir.stale + {dir.current.value.bytes}))
    case Crash => y' == y.(coord := Idle, calls := map[])
    case _ => false
  }

  ghost predicate Next(y: System, y': System, st: Step) {
    CallStep(y, y', st) || LockStep(y, y', st) || (Working(y) && WorkStep(y, y', st))
  }
}
