/** What merging keeps: ownership, the forest of merges, and everything the index is built from. */
module MergeProof {
  import opened Tables
  import opened IdentityManager

  ghost predicate CanMerge(t: Tables, loser: IdentityId, survivor: IdentityId) {
    loser != survivor && IsActive(t.identities, loser) && IsActive(t.identities, survivor)
  }

  lemma MergedState(t: Tables, loser: IdentityId, survivor: IdentityId, i: IdentityId)
    requires CanMerge(t, loser, survivor)
    ensures var m := MergedIdentities(t.identities, loser, survivor);
      && (i in m <==> i in t.identities)
      && (IsActive(m, i) <==> IsActive(t.identities, i) && i != loser)
  {}

  lemma MergeKeepsReps(t: Tables, loser: IdentityId, survivor: IdentityId)
    requires Owned(t) && CanMerge(t, loser, survivor)
    ensures var u := AfterMerge(t, loser, survivor);
      forall r :: r in u.reps ==> RepOwned(u, r) && (u.reps[r].state.Active? && t.reps[r].OwnedBy(loser) ==> u.reps[r].OwnedBy(survivor))
  {
    var u := AfterMerge(t, loser, survivor);
    forall r | r in u.reps
      ensures RepOwned(u, r) && (u.reps[r].state.Active? && t.reps[r].OwnedBy(loser) ==> u.reps[r].OwnedBy(survivor))
    {
      assert RepOwned(t, r);
    }
  }

  lemma MergeKeepsOccurrences(t: Tables, loser: IdentityId, survivor: IdentityId)
    requires Owned(t) && CanMerge(t, loser, survivor)
    ensures var u := AfterMerge(t, loser, survivor); forall o :: o in u.occurrences ==> OccurrenceOwned(u, o)
  {
    var u := AfterMerge(t, loser, survivor);
    forall o | o in u.occurrences ensures OccurrenceOwned(u, o) { assert OccurrenceOwned(t, o); }
  }

  // An ACTIVE link afterwards is not the loser's: it was there before, or it carries the loser's name
  // over to a survivor that had none.
  lemma ReconciledLink(t: Tables, loser: IdentityId, survivor: IdentityId, l: LinkId)
    requires IdsDrawn(t) && loser != survivor && l in Reconciled(t, loser, survivor).links
    ensures var link := Reconciled(t, loser, survivor).links[l];
      && (link.state.Active? ==> link.identity != loser)
      && if l in t.links then link == t.links[l].(state := link.state) && (link.state.Active? ==> t.links[l].state.Active?)
         else l == t.nextId && link.identity == survivor && !HasActiveLink(t.links, survivor)
  {}

  lemma MergeKeepsLink(t: Tables, loser: IdentityId, survivor: IdentityId, l: LinkId)
    requires Owned(t) && IdsDrawn(t) && CanMerge(t, loser, survivor) && l in Reconciled(t, loser, survivor).links
    ensures LinkOwned(AfterMerge(t, loser, survivor), l)
  {
    var links := Reconciled(t, loser, survivor).links;
    ReconciledLink(t, loser, survivor, l);
    MergedState(t, loser, survivor, links[l].identity);
    if l in t.links { assert LinkOwned(t, l); }
    forall k | k in links && links[k].ActiveOf(links[l].identity) && links[l].state.Active? ensures k == l {
      ReconciledLink(t, loser, survivor, k);
    }
  }

  lemma MergeKeepsForest(t: Tables, loser: IdentityId, survivor: IdentityId)
    requires Forest(t.identities) && CanMerge(t, loser, survivor)
    ensures Forest(MergedIdentities(t.identities, loser, survivor))
  {
    var rank :| Ranked(t.identities, rank);
    var above := (if rank[loser] < rank[survivor] then rank[survivor] else rank[loser]) + 1;
    assert Ranked(MergedIdentities(t.identities, loser, survivor), rank[survivor := above]);
  }

  lemma MergeKeepsOwned(t: Tables, loser: IdentityId, survivor: IdentityId)
    requires Owned(t) && IdsDrawn(t) && CanMerge(t, loser, survivor)
    ensures Owned(AfterMerge(t, loser, survivor))
  {
    MergeKeepsReps(t, loser, survivor);
    MergeKeepsOccurrences(t, loser, survivor);
    forall l | l in AfterMerge(t, loser, survivor).links ensures LinkOwned(AfterMerge(t, loser, survivor), l) {
      MergeKeepsLink(t, loser, survivor, l);
    }
  }

  lemma MergeKeepsIds(t: Tables, loser: IdentityId, survivor: IdentityId)
    requires IdsDrawn(t) && CanMerge(t, loser, survivor)
    ensures IdsDrawn(AfterMerge(t, loser, survivor))
  {}

  lemma MergeKeepsInv(t: Tables, loser: IdentityId, survivor: IdentityId)
    requires LifecycleInv(t) && CanMerge(t, loser, survivor)
    ensures LifecycleInv(AfterMerge(t, loser, survivor))
  {
    MergeKeepsOwned(t, loser, survivor);
    MergeKeepsIds(t, loser, survivor);
    MergeKeepsForest(t, loser, survivor);
  }

  // Merging leaves the index alone: every space's eligible vectors and keys, and the queue, are as
  // they were.
  lemma MergeKeepsIndex(t: Tables, loser: IdentityId, survivor: IdentityId)
    requires Owned(t) && CanMerge(t, loser, survivor)
    ensures SameIndex(t, AfterMerge(t, loser, survivor))
  {
    var u := AfterMerge(t, loser, survivor);
    MergeKeepsReps(t, loser, survivor);
    forall r | r in t.reps ensures RowOf(u.identities, u.reps[r]).Eligible() <==> RowOf(t.identities, t.reps[r]).Eligible() {
      assert RepOwned(t, r) && RepOwned(u, r);
    }
  }
}
