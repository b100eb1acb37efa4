/** `split_identity`, with the evidence each occurrence rests on and the face that stands for an
    identity. */
module Splitting {
  import opened Store
  import opened Tables
  import opened IdentityManager

  // The ACTIVE representations of the identity that rest on the occurrence's observations.
  function SupportOf(reps: Reps, i: IdentityId, occurrence: Occurrence): set<RepId> {
    set r | r in reps && reps[r].ActiveOf(i) && reps[r].observation in occurrence.Observations()
  }

  // `occurrence_support`.
  method OccurrenceSupport(session: LifecycleSession, i: IdentityId) returns (support: map<OccurrenceId, set<RepId>>)
    ensures support.Keys == ActiveOccurrences(session.occurrences, i)
    ensures forall o :: o in support ==> support[o] == SupportOf(session.reps, i, session.occurrences[o])
  {
    support := map[];
    var left := ActiveOccurrences(session.occurrences, i);
    while left != {}
      invariant left <= ActiveOccurrences(session.occurrences, i)
      invariant support.Keys == ActiveOccurrences(session.occurrences, i) - left
      invariant forall o :: o in support ==> support[o] == SupportOf(session.reps, i, session.occurrences[o])
      decreases left
    {
      var o :| o in left;
      support := support[o := SupportOf(session.reps, i, session.occurrences[o])];
      left := left - {o};
    }
  }

  // ----- the face that stands for an identity -----

  // An ACTIVE occurrence of the identity whose representative face it still owns.
  predicate IsFace(reps: Reps, occurrences: Occurrences, i: IdentityId, o: OccurrenceId) {
    && o in occurrences && occurrences[o].ActiveOf(i) && occurrences[o].representative.Some?
    && exists r :: r in reps && reps[r].ActiveOf(i) && reps[r].observation == occurrences[o].representative.value
  }

  predicate Earlier(occurrences: Occurrences, o: OccurrenceId, p: OccurrenceId)
    requires o in occurrences && p in occurrences
  {
    occurrences[o].created < occurrences[p].created || (occurrences[o].created == occurrences[p].created && o < p)
  }

  // The earliest face, or none.
  ghost predicate IsFirstFace(reps: Reps, occurrences: Occurrences, i: IdentityId, face: Option<ObservationId>) {
    if face.None? then forall o :: !IsFace(reps, occurrences, i, o)
    else exists o :: IsFirst(reps, occurrences, i, o) && occurrences[o].representative == face
  }

  ghost predicate IsFirst(reps: Reps, occurrences: Occurrences, i: IdentityId, o: OccurrenceId) {
    && IsFace(reps, occurrences, i, o)
    && forall p :: IsFace(reps, occurrences, i, p) ==> !Earlier(occurrences, p, o)
  }

  // `refresh_representative`: unless it has just left, the face stays.
  ghost predicate Refreshed(reps: Reps, occurrences: Occurrences, i: IdentityId, before: Option<ObservationId>,
                            moved: set<ObservationId>, face: Option<ObservationId>)
  {
    if before.Some? && before.value in moved then IsFirstFace(reps, occurrences, i, face) else face == before
  }

  method RefreshRepresentative(session: LifecycleSession, i: IdentityId, moved: set<ObservationId>)
    requires i in session.identities
    modifies session`identities
    ensures i in session.identities
    ensures session.identities == old(session.identities)[i := old(session.identities)[i].(representative := session.identities[i].representative)]
    ensures Refreshed(session.reps, session.occurrences, i, old(session.identities)[i].representative, moved, session.identities[i].representative)
  {
    var before := session.identities[i].representative;
    if before.None? || before.value !in moved { return; }
    var face := FirstFace(session.reps, session.occurrences, i);
    session.identities := session.identities[i := session.identities[i].(representative := face)];
  }

  method FirstFace(reps: Reps, occurrences: Occurrences, i: IdentityId) returns (face: Option<ObservationId>)
    ensures IsFirstFace(reps, occurrences, i, face)
  {
    var left := set o | o in occurrences && IsFace(reps, occurrences, i, o);
    ghost var all := left;
    var best: Option<OccurrenceId> := None;
    while left != {}
      invariant left <= all
      invariant best.None? ==> left == all
      invariant best.Some? ==> best.value in all && forall p :: p in all && p !in left ==> !Earlier(occurrences, p, best.value)
      decreases left
    {
      var o :| o in left;
      if best.None? || Earlier(occurrences, o, best.value) { best := Some(o); }
      left := left - {o};
    }
    assert forall p :: IsFace(reps, occurrences, i, p) <==> p in all;
    if best.None? { return None; }
    assert IsFirst(reps, occurrences, i, best.value);
    face := occurrences[best.value].representative;
  }

  // ----- split -----

  function Selected(ids: seq<RepId>): set<RepId> { set r | r in ids }

  function Conflicts(t: Tables, src: IdentityId, selected: set<RepId>): set<OccurrenceId> {
    set o | o in t.occurrences && t.occurrences[o].ActiveOf(src)
      && var support := SupportOf(t.reps, src, t.occurrences[o]); support * selected != {} && !(support <= selected)
  }

  function MovingOccurrences(t: Tables, src: IdentityId, selected: set<RepId>): set<OccurrenceId> {
    set o | o in t.occurrences && t.occurrences[o].ActiveOf(src) && SupportOf(t.reps, src, t.occurrences[o]) * selected != {}
  }

  predicate Distinct(ids: seq<RepId>) { forall i, j :: 0 <= i < j < |ids| ==> ids[i] != ids[j] }

  // Representations named twice break the primary key of what the evidence cites.
  function SplitRefusal(t: Tables, src: IdentityId, ids: seq<RepId>, expected: Option<nat>): Option<Refusal> {
    if !IsActive(t.identities, src) || ids == [] then Some(Invalid)
    else if exists r :: r in ids && !(r in t.reps && t.reps[r].ActiveOf(src)) then Some(Invalid)
    else if Conflicts(t, src, Selected(ids)) != {} then Some(Refusal.SplitConflict(Conflicts(t, src, Selected(ids))))
    else if expected.Some? && expected.value != t.identities[src].revision then Some(StaleRevision)
    else if !Distinct(ids) then Some(Integrity)
    else None
  }

  function ObservationsOf(occurrences: Occurrences, moving: set<OccurrenceId>): set<ObservationId> {
    set o, x | o in moving && o in occurrences && x in occurrences[o].Observations() :: x
  }

  // The state after a split of `selected` from `src` into `part`; only which moving face stands for
  // the new identity is open.
  ghost predicate IsSplit(t: Tables, u: Tables, src: IdentityId, selected: set<RepId>, part: IdentityId)
    requires src in t.identities
  {
    var moving := MovingOccurrences(t, src, selected);
    && u.reps == RepsMoved(t.reps, selected, part) && u.occurrences == OccurrencesMoved(t.occurrences, moving, part)
    && part in u.identities && src in u.identities
    && u.identities == t.identities[part := NEW.(representative := u.identities[part].representative)]
                                   [src := t.identities[src].(revision := t.identities[src].revision + 1, representative := u.identities[src].representative)]
    && Refreshed(u.reps, u.occurrences, src, t.identities[src].representative, ObservationsOf(t.occurrences, moving), u.identities[src].representative)
    && StandsFor(t.occurrences, moving, u.identities[part].representative)
    && part == t.nextId && u.nextId == t.nextId + 1
    && u.evidence == t.evidence + [Evidence(IdentitySplit, Some(part), None, selected)]
    && u.lineage == t.lineage + [Lineage(LineageKind.SplitFrom, src, part)]
    && u == t.(identities := u.identities, reps := u.reps, occurrences := u.occurrences, evidence := u.evidence,
               lineage := u.lineage, nextId := u.nextId)
  }

  ghost predicate StandsFor(occurrences: Occurrences, moving: set<OccurrenceId>, face: Option<ObservationId>) {
    if face.None? then forall o :: o in moving && o in occurrences ==> occurrences[o].representative.None?
    else exists o :: o in moving && o in occurrences && occurrences[o].representative == face
  }

  method SplitIdentity(session: LifecycleSession, src: IdentityId, ids: seq<RepId>, expected: Option<nat>) returns (r: Result<IdentityId>)
    requires session.nextId !in session.identities
    modifies session
    ensures match SplitRefusal(old(session.T()), src, ids, expected)
      case Some(e) => r == Refused(e) && session.T() == old(session.T())
      case None => r == Ok(old(session.nextId)) && IsSplit(old(session.T()), session.T(), src, Selected(ids), old(session.nextId))
  {
    if !IsActive(session.identities, src) || ids == [] { return Refused(Invalid); }
    var n := 0;
    while n < |ids|
      invariant 0 <= n <= |ids|
      invariant forall k :: 0 <= k < n ==> ids[k] in session.reps && session.reps[ids[k]].ActiveOf(src)
    {
      if ids[n] !in session.reps || !session.reps[ids[n]].ActiveOf(src) { return Refused(Invalid); }
      n := n + 1;
    }
    var selected := Selected(ids);
    var supports := OccurrenceSupport(session, src);
    var conflicts := set o | o in supports && supports[o] * selected != {} && !(supports[o] <= selected);
    assert conflicts == Conflicts(session.T(), src, selected);
    if conflicts != {} { return Refused(Refusal.SplitConflict(conflicts)); }
    var moving := set o | o in supports && supports[o] * selected != {};
    assert moving == MovingOccurrences(session.T(), src, selected);
    if expected.Some? && expected.value != session.identities[src].revision { return Refused(StaleRevision); }
    if !Distinct(ids) { return Refused(Integrity); }
    var part := MoveOut(session, src, ids, moving);
    r := Ok(part);
  }

  // The writes of a split that was not refused.
  method MoveOut(session: LifecycleSession, src: IdentityId, ids: seq<RepId>, moving: set<OccurrenceId>) returns (part: IdentityId)
    requires src in session.identities && session.nextId !in session.identities
    requires moving == MovingOccurrences(session.T(), src, Selected(ids)) && forall r :: r in ids ==> r in session.reps
    modifies session
    ensures part == old(session.nextId) && IsSplit(old(session.T()), session.T(), src, Selected(ids), part)
  {
    var leaving := ObservationsOf(session.occurrences, moving);
    part := MoveSelection(session, src, ids, moving);
    RefreshRepresentative(session, src, leaving);
  }

  // All but the face of the identity that was split.
  method MoveSelection(session: LifecycleSession, src: IdentityId, ids: seq<RepId>, moving: set<OccurrenceId>) returns (part: IdentityId)
    requires src in session.identities && session.nextId !in session.identities
    requires moving <= session.occurrences.Keys && forall r :: r in ids ==> r in session.reps
    modifies session`identities, session`reps, session`occurrences, session`evidence, session`lineage, session`nextId
    ensures part == old(session.nextId) && session.nextId == part + 1 && part in session.identities
    ensures session.reps == RepsMoved(old(session.reps), Selected(ids), part)
    ensures session.occurrences == OccurrencesMoved(old(session.occurrences), moving, part)
    ensures session.identities == Touched(old(session.identities), src)[part := NEW.(representative := session.identities[part].representative)]
    ensures StandsFor(old(session.occurrences), moving, session.identities[part].representative)
    ensures session.evidence == old(session.evidence) + [Evidence(IdentitySplit, Some(part), None, Selected(ids))]
    ensures session.lineage == old(session.lineage) + [Lineage(LineageKind.SplitFrom, src, part)]
  {
    part := FoundPart(session, src, Selected(ids));
    MoveReps(session, ids, part);
    MoveOccurrences(session, moving, part);
  }

  // The new identity, with its evidence and lineage.
  method FoundPart(session: LifecycleSession, src: IdentityId, selected: set<RepId>) returns (part: IdentityId)
    requires src in session.identities && session.nextId !in session.identities
    modifies session`identities, session`nextId, session`evidence, session`lineage
    ensures part == old(session.nextId) && session.nextId == part + 1
    ensures session.identities == Touched(old(session.identities), src)[part := NEW]
    ensures session.evidence == old(session.evidence) + [Evidence(IdentitySplit, Some(part), None, selected)]
    ensures session.lineage == old(session.lineage) + [Lineage(LineageKind.SplitFrom, src, part)]
  {
    session.identities := Touched(session.identities, src);
    part := session.NewId();
    session.identities := session.identities[part := NEW];
    session.Record(Evidence(IdentitySplit, Some(part), None, selected));
    session.lineage := session.lineage + [Lineage(LineageKind.SplitFrom, src, part)];
  }

  method MoveReps(session: LifecycleSession, ids: seq<RepId>, part: IdentityId)
    requires forall r :: r in ids ==> r in session.reps
    modifies session`reps
    ensures session.reps == RepsMoved(old(session.reps), Selected(ids), part)
  {
    ghost var reps := session.reps;
    var n := 0;
    while n < |ids|
      invariant 0 <= n <= |ids|
      invariant session.reps == RepsMoved(reps, Selected(ids[..n]), part)
    {
      assert ids[..n + 1] == ids[..n] + [ids[n]];
      session.reps := session.reps[ids[n] := session.reps[ids[n]].(identity := Some(part))];
      n := n + 1;
    }
    assert ids[..n] == ids;
  }

  method MoveOccurrences(session: LifecycleSession, moving: set<OccurrenceId>, part: IdentityId)
    requires moving <= session.occurrences.Keys && part in session.identities && session.identities[part].representative.None?
    modifies session`occurrences, session`identities
    ensures session.occurrences == OccurrencesMoved(old(session.occurrences), moving, part)
    ensures part in session.identities && StandsFor(old(session.occurrences), moving, session.identities[part].representative)
    ensures session.identities == old(session.identities)[part := old(session.identities)[part].(representative := session.identities[part].representative)]
  {
    ghost var occurrences, identities := session.occurrences, session.identities;
    var left := moving;
    while left != {}
      invariant left <= moving
      invariant session.occurrences == OccurrencesMoved(occurrences, moving - left, part)
      invariant part in session.identities && StandsFor(occurrences, moving - left, session.identities[part].representative)
      invariant session.identities == identities[part := identities[part].(representative := session.identities[part].representative)]
      decreases left
    {
      var o :| o in left;
      session.occurrences := session.occurrences[o := session.occurrences[o].(identity := part)];
      if session.identities[part].representative.None? {
        session.identities := session.identities[part := session.identities[part].(representative := session.occurrences[o].representative)];
      }
      left := left - {o};
    }
    assert moving - left == moving;
  }
}
