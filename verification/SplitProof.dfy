/** What splitting keeps, and that merging the part back undoes it. */
module SplitProof {
  import opened Store
  import opened Tables
  import opened IdentityManager
  import opened MergeProof
  import opened Splitting

  ghost predicate CanSplit(t: Tables, src: IdentityId, selected: set<RepId>) {
    IsActive(t.identities, src) && selected <= ActiveReps(t.reps, src) && Conflicts(t, src, selected) == {}
  }

  lemma NotRefused(t: Tables, src: IdentityId, ids: seq<RepId>, expected: Option<nat>)
    requires SplitRefusal(t, src, ids, expected).None?
    ensures CanSplit(t, src, Selected(ids))
  {}

  lemma NothingOfPart(t: Tables, part: IdentityId)
    requires LifecycleInv(t) && part == t.nextId
    ensures ActiveReps(t.reps, part) == {} && ActiveOccurrences(t.occurrences, part) == {}
    ensures part !in t.identities && !HasActiveLink(t.links, part)
  {
    forall r | r in t.reps ensures !t.reps[r].OwnedBy(part) { assert RepOwned(t, r); }
    forall o | o in t.occurrences ensures t.occurrences[o].identity != part { assert OccurrenceOwned(t, o); }
    forall l | l in t.links ensures t.links[l].identity != part { assert LinkOwned(t, l); }
  }

  lemma SplitIdentities(t: Tables, u: Tables, src: IdentityId, selected: set<RepId>, part: IdentityId, i: IdentityId)
    requires LifecycleInv(t) && CanSplit(t, src, selected) && IsSplit(t, u, src, selected, part)
    ensures IsActive(u.identities, i) <==> IsActive(t.identities, i) || i == part
    ensures i in u.identities <==> i in t.identities || i == part
  {
    NothingOfPart(t, part);
  }

  lemma SplitKeepsForest(t: Tables, u: Tables, src: IdentityId, selected: set<RepId>, part: IdentityId)
    requires LifecycleInv(t) && CanSplit(t, src, selected) && IsSplit(t, u, src, selected, part)
    ensures Forest(u.identities)
  {
    NothingOfPart(t, part);
    var rank :| Ranked(t.identities, rank);
    assert Ranked(u.identities, rank[part := 0]);
  }

  lemma SplitKeepsInv(t: Tables, u: Tables, src: IdentityId, selected: set<RepId>, part: IdentityId)
    requires LifecycleInv(t) && CanSplit(t, src, selected) && IsSplit(t, u, src, selected, part)
    ensures LifecycleInv(u)
  {
    SplitKeepsForest(t, u, src, selected, part);
    SplitKeepsOwned(t, u, src, selected, part);
  }

  lemma SplitKeepsOwned(t: Tables, u: Tables, src: IdentityId, selected: set<RepId>, part: IdentityId)
    requires LifecycleInv(t) && CanSplit(t, src, selected) && IsSplit(t, u, src, selected, part)
    ensures Owned(u)
  {
    forall r | r in u.reps ensures RepOwned(u, r) {
      assert RepOwned(t, r);
      if u.reps[r].identity.Some? { SplitIdentities(t, u, src, selected, part, u.reps[r].identity.value); }
    }
    forall o | o in u.occurrences ensures OccurrenceOwned(u, o) {
      assert OccurrenceOwned(t, o);
      SplitIdentities(t, u, src, selected, part, u.occurrences[o].identity);
    }
    forall l | l in u.links ensures LinkOwned(u, l) {
      assert LinkOwned(t, l);
      SplitIdentities(t, u, src, selected, part, u.links[l].identity);
    }
  }

  // Splitting leaves the index alone.
  lemma SplitKeepsIndex(t: Tables, u: Tables, src: IdentityId, selected: set<RepId>, part: IdentityId)
    requires LifecycleInv(t) && CanSplit(t, src, selected) && IsSplit(t, u, src, selected, part)
    ensures SameIndex(t, u)
  {
    forall r | r in t.reps ensures RowOf(u.identities, u.reps[r]).Eligible() <==> RowOf(t.identities, t.reps[r]).Eligible() {
      assert RepOwned(t, r);
      if u.reps[r].identity.Some? { SplitIdentities(t, u, src, selected, part, u.reps[r].identity.value); }
    }
  }

  // All of an ACTIVE occurrence's support moves with it, or none does: whoever owns it afterwards
  // owns exactly the evidence it rested on.
  lemma SplitKeepsSupport(t: Tables, u: Tables, src: IdentityId, selected: set<RepId>, part: IdentityId, o: OccurrenceId)
    requires LifecycleInv(t) && CanSplit(t, src, selected) && IsSplit(t, u, src, selected, part)
    requires o in t.occurrences && t.occurrences[o].state.Active?
    ensures var before := SupportOf(t.reps, t.occurrences[o].identity, t.occurrences[o]);
      && SupportOf(u.reps, u.occurrences[o].identity, u.occurrences[o]) == before
      && (t.occurrences[o].identity == src ==> (u.occurrences[o].identity == part <==> before * selected != {}))
      && (u.occurrences[o].identity != t.occurrences[o].identity ==> before <= selected)
  {
    NothingOfPart(t, part);
    var i, before := t.occurrences[o].identity, SupportOf(t.reps, t.occurrences[o].identity, t.occurrences[o]);
    assert OccurrenceOwned(t, o);
    var moves := o in MovingOccurrences(t, src, selected);
    assert i == src ==> o !in Conflicts(t, src, selected);
    forall r | r in t.reps
      ensures r in SupportOf(u.reps, u.occurrences[o].identity, u.occurrences[o]) <==> r in before
    {
      assert RepOwned(t, r);
      assert r in ActiveReps(t.reps, part) <==> t.reps[r].ActiveOf(part);
      assert r in before * selected <==> r in before && r in selected;
    }
  }

  // Merging the part back restores the owner of every representation and every occurrence, and no
  // person is lost or gained.
  lemma SplitThenMerge(t: Tables, u: Tables, src: IdentityId, selected: set<RepId>, part: IdentityId)
    requires LifecycleInv(t) && CanSplit(t, src, selected) && IsSplit(t, u, src, selected, part)
    ensures CanMerge(u, part, src)
    ensures var v := AfterMerge(u, part, src);
      && v.reps == t.reps && v.occurrences == t.occurrences && v.links == t.links
      && IsActive(v.identities, src) && v.identities.Keys == t.identities.Keys + {part}
      && forall i :: i in t.identities && i != src ==> v.identities[i] == t.identities[i]
  {
    NothingOfPart(t, part);
    var v := AfterMerge(u, part, src);
    forall r | r in t.reps ensures v.reps[r] == t.reps[r] {
      assert RepOwned(t, r);
      assert r in ActiveReps(t.reps, part) <==> t.reps[r].ActiveOf(part);
    }
    forall o | o in t.occurrences ensures v.occurrences[o] == t.occurrences[o] {
      assert o in ActiveOccurrences(t.occurrences, part) <==> t.occurrences[o].ActiveOf(part);
      assert OccurrenceOwned(t, o);
    }
  }
}
