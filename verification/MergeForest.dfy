/** Following merges: the chain of one identity and the family of all that were merged into it. */
module MergeForest {
  import opened Tables

  // `y` is `n` merges up from `x`.
  predicate After(identities: Identities, x: IdentityId, y: IdentityId, n: nat)
    decreases n
  {
    if n == 0 then x == y
    else x in identities && identities[x].mergedInto.Some? && After(identities, identities[x].mergedInto.value, y, n - 1)
  }

  ghost predicate PassesThrough(identities: Identities, x: IdentityId, y: IdentityId) {
    exists n: nat :: After(identities, x, y, n)
  }

  // Where the chain of `x` ends.
  ghost predicate EndsAt(identities: Identities, x: IdentityId, y: IdentityId) {
    PassesThrough(identities, x, y) && !(y in identities && identities[y].state.Merged?)
  }

  lemma {:induction false} AfterOneMore(identities: Identities, x: IdentityId, y: IdentityId, n: nat)
    requires After(identities, x, y, n) && y in identities && identities[y].mergedInto.Some?
    ensures After(identities, x, identities[y].mergedInto.value, n + 1)
    decreases n
  {
    if n > 0 { AfterOneMore(identities, identities[x].mergedInto.value, y, n - 1); }
  }

  // A chain never comes back: the pointers form a forest.
  lemma {:induction false} ChainClimbs(identities: Identities, rank: map<IdentityId, nat>, x: IdentityId, y: IdentityId, n: nat)
    requires Pointing(identities) && Ranked(identities, rank) && After(identities, x, y, n) && x in identities
    ensures y in identities && rank[x] <= rank[y] && (n > 0 ==> rank[x] < rank[y])
    decreases n
  {
    if n > 0 { ChainClimbs(identities, rank, identities[x].mergedInto.value, y, n - 1); }
  }

  lemma NoCycle(identities: Identities, x: IdentityId, n: nat)
    requires Forest(identities) && x in identities && n > 0
    ensures !After(identities, x, x, n)
  {
    var rank :| Ranked(identities, rank);
    if After(identities, x, x, n) { ChainClimbs(identities, rank, x, x, n); }
  }

  lemma {:induction false} EndIsUnique(identities: Identities, x: IdentityId, y: IdentityId, n: nat, z: IdentityId, m: nat)
    requires Pointing(identities) && After(identities, x, y, n) && After(identities, x, z, m) && n <= m
    requires !(y in identities && identities[y].state.Merged?)
    ensures y == z
    decreases n
  {
    if n > 0 { EndIsUnique(identities, identities[x].mergedInto.value, y, n - 1, z, m - 1); }
  }

  // The chain-following loop of `resolve_recognition_candidates` for one candidate.
  method FollowMerges(identities: Identities, candidate: IdentityId) returns (end: IdentityId)
    requires Forest(identities)
    ensures EndsAt(identities, candidate, end)
    ensures candidate in identities ==> end in identities
  {
    ghost var rank :| Ranked(identities, rank);
    ghost var top: nat := Highest(rank);
    ghost var n := 0;
    end := candidate;
    while end in identities && identities[end].state.Merged?
      invariant After(identities, candidate, end, n)
      invariant candidate in identities ==> end in identities
      decreases if end in identities then top - rank[end] else 0
    {
      RankBelow(rank, end);
      AfterOneMore(identities, candidate, end, n);
      RankBelow(rank, identities[end].mergedInto.value);
      end, n := identities[end].mergedInto.value, n + 1;
    }
  }

  ghost function Highest(rank: map<IdentityId, nat>): (top: nat)
    ensures forall i :: i in rank ==> rank[i] <= top
    decreases |rank|
  {
    if rank == map[] then 0
    else
      var i :| i in rank;
      var rest := rank - {i};
      assert |rest| < |rank| by { assert rest.Keys == rank.Keys - {i}; assert |rest.Keys| == |rest| && |rank.Keys| == |rank|; }
      var below := Highest(rest);
      assert forall j :: j in rank && j != i ==> j in rest && rest[j] == rank[j];
      if rank[i] <= below then below else rank[i]
  }

  lemma RankBelow(rank: map<IdentityId, nat>, i: IdentityId)
    requires i in rank
    ensures rank[i] <= Highest(rank)
  {}

  // The first candidate whose chain passes through `i` is the one at `n`.
  ghost predicate FirstAt(identities: Identities, candidates: seq<IdentityId>, i: IdentityId, n: nat) {
    && n < |candidates| && PassesThrough(identities, candidates[n], i)
    && forall m :: 0 <= m < n ==> !PassesThrough(identities, candidates[m], i)
  }

  // One after the other as the candidates that resolve to them first come.
  ghost predicate InCandidateOrder(identities: Identities, candidates: seq<IdentityId>, resolved: seq<IdentityId>) {
    forall j, k, m, n | 0 <= j < k < |resolved| && FirstAt(identities, candidates, resolved[j], m)
                        && FirstAt(identities, candidates, resolved[k], n) :: m < n
  }

  // `resolve_recognition_candidates`: each candidate's current ACTIVE identity, in order, once.
  method ResolveRecognitionCandidates(identities: Identities, candidates: seq<IdentityId>) returns (resolved: seq<IdentityId>)
    requires Forest(identities)
    ensures forall i :: i in resolved <==> IsActive(identities, i) && exists c :: c in candidates && PassesThrough(identities, c, i)
    ensures forall j, k :: 0 <= j < k < |resolved| ==> resolved[j] != resolved[k]
    ensures InCandidateOrder(identities, candidates, resolved)
  {
    resolved := [];
    var seen := {};
    var n := 0;
    while n < |candidates|
      invariant 0 <= n <= |candidates|
      invariant forall i :: i in resolved <==> i in seen
      invariant forall i :: i in seen <==> IsActive(identities, i) && exists c :: c in candidates[..n] && PassesThrough(identities, c, i)
      invariant forall j, k :: 0 <= j < k < |resolved| ==> resolved[j] != resolved[k]
      invariant InCandidateOrder(identities, candidates, resolved)
    {
      var c := candidates[n];
      var end := FollowMerges(identities, c);
      assert candidates[..n + 1] == candidates[..n] + [c];
      forall i | IsActive(identities, i) && PassesThrough(identities, c, i) ensures i == end { ActiveIsEnd(identities, c, i, end); }
      if end in identities && identities[end].state.Active? && end !in seen {
        ComesAfter(identities, candidates, resolved, n, end);
        seen := seen + {end};
        resolved := resolved + [end];
      }
      n := n + 1;
    }
    assert candidates[..n] == candidates;
  }

  // What is new at candidate `n` comes after everything resolved before.
  lemma ComesAfter(identities: Identities, candidates: seq<IdentityId>, resolved: seq<IdentityId>, n: nat, end: IdentityId)
    requires n < |candidates| && InCandidateOrder(identities, candidates, resolved)
    requires forall i :: i in resolved ==> exists c :: c in candidates[..n] && PassesThrough(identities, c, i)
    requires forall c :: c in candidates[..n] ==> !PassesThrough(identities, c, end)
    ensures InCandidateOrder(identities, candidates, resolved + [end])
  {
    var more := resolved + [end];
    forall j, k, m, o | 0 <= j < k < |more| && FirstAt(identities, candidates, more[j], m) && FirstAt(identities, candidates, more[k], o)
      ensures m < o
    {
      assert more[j] == resolved[j] && resolved[j] in resolved;
      if k < |resolved| {
        assert more[k] == resolved[k];
      } else {
        var c :| c in candidates[..n] && PassesThrough(identities, c, resolved[j]);
        var p :| 0 <= p < n && candidates[..n][p] == c;
        assert candidates[p] == c;
        assert forall q :: 0 <= q < n ==> candidates[q] in candidates[..n];
      }
    }
  }

  lemma ActiveIsEnd(identities: Identities, c: IdentityId, i: IdentityId, end: IdentityId)
    requires Forest(identities) && IsActive(identities, i) && PassesThrough(identities, c, i) && EndsAt(identities, c, end)
    ensures i == end
  {
    var n: nat :| After(identities, c, i, n);
    var m: nat :| After(identities, c, end, m);
    if n <= m { EndIsUnique(identities, c, i, n, end, m); } else { EndIsUnique(identities, c, end, m, i, n); }
  }

  // `_family`: breadth first, from the identity down to everything merged into it.
  method Family(identities: Identities, x: IdentityId) returns (family: seq<IdentityId>)
    requires x in identities
    ensures forall y :: y in family <==> y in identities && PassesThrough(identities, y, x)
    ensures forall j, k :: 0 <= j < k < |family| ==> family[j] != family[k]
  {
    family := [x];
    var seen, frontier := {x}, {x};
    assert After(identities, x, x, 0);
    while frontier != {}
      invariant forall y :: y in family <==> y in seen
      invariant forall j, k :: 0 <= j < k < |family| ==> family[j] != family[k]
      invariant x in seen && seen <= identities.Keys && frontier <= seen
      invariant forall y :: y in seen ==> PassesThrough(identities, y, x)
      invariant forall y :: y in identities && identities[y].mergedInto.Some? && identities[y].mergedInto.value in seen - frontier ==> y in seen
      decreases identities.Keys - seen, frontier
    {
      var found := set y | y in identities && identities[y].mergedInto.Some? && identities[y].mergedInto.value in frontier && y !in seen;
      forall y | y in found ensures PassesThrough(identities, y, x) {
        var n: nat :| After(identities, identities[y].mergedInto.value, x, n);
        assert After(identities, y, x, n + 1);
      }
      var listed := Listed(found);
      forall j | 0 <= j < |listed| ensures listed[j] !in family { assert listed[j] in listed && listed[j] in found; }
      family := family + listed;
      ghost var before := seen;
      seen := seen + found;
      frontier := found;
      if found == {} { assert seen == before; } else { var y :| y in found; assert y in identities.Keys - before && y !in identities.Keys - seen; }
    }
    forall y | y in identities && PassesThrough(identities, y, x) ensures y in seen {
      var n: nat :| After(identities, y, x, n);
      ClosedUnderMerges(identities, seen, x, y, n);
    }
  }

  lemma {:induction false} ClosedUnderMerges(identities: Identities, seen: set<IdentityId>, x: IdentityId, y: IdentityId, n: nat)
    requires x in seen && After(identities, y, x, n)
    requires forall z :: z in identities && identities[z].mergedInto.Some? && identities[z].mergedInto.value in seen ==> z in seen
    ensures y in seen
    decreases n
  {
    if n > 0 { ClosedUnderMerges(identities, seen, x, identities[y].mergedInto.value, n - 1); }
  }

  // The rows a statement returned, in some order.
  method Listed(s: set<IdentityId>) returns (list: seq<IdentityId>)
    ensures forall y :: y in list <==> y in s
    ensures forall j, k :: 0 <= j < k < |list| ==> list[j] != list[k]
  {
    list := [];
    var left := s;
    while left != {}
      invariant left <= s && forall y :: y in list <==> y in s - left
      invariant forall j, k :: 0 <= j < k < |list| ==> list[j] != list[k]
      decreases left
    {
      var y :| y in left;
      assert y !in list;
      list, left := list + [y], left - {y};
    }
  }
}
