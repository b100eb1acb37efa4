/** Keys an index returned, looked up in SQLite a chunk at a time: `by_ann_keys` and
    `resolve_ann_candidates`. */
module AnnLookup {
  import opened Store
  import opened Evolution
  import opened Tables
  import opened Forget

  const KEYS_PER_QUERY: nat := 500

  datatype Candidate = Candidate(key: Key, rep: RepId, identity: Option<IdentityId>)

  predicate HeldBy(t: Tables, s: SpaceId, k: Key, r: RepId) {
    r in t.reps && t.reps[r].space == s && t.reps[r].key == Some(k)
  }

  // What SQLite still stands behind.
  predicate StandsBehind(t: Tables, s: SpaceId, k: Key, r: RepId) {
    HeldBy(t, s, k, r) && RowOf(t.identities, t.reps[r]).Eligible()
  }

  predicate IsEligibleKey(t: Tables, s: SpaceId, k: Key) { exists r :: r in t.reps && StandsBehind(t, s, k, r) }

  // The first occurrence of each key, in order.
  function Unique(keys: seq<Key>): (u: seq<Key>)
    ensures forall k :: k in u <==> k in keys
    ensures forall i, j :: 0 <= i < j < |u| ==> u[i] != u[j]
  {
    if keys == [] then []
    else
      var init, last := Unique(keys[..|keys| - 1]), keys[|keys| - 1];
      assert keys == keys[..|keys| - 1] + [last];
      if last in init then init else init + [last]
  }

  // The schema's unique key per space.
  ghost predicate KeysUnique(t: Tables) {
    forall a, b, s, k :: HeldBy(t, s, k, a) && HeldBy(t, s, k, b) ==> a == b
  }

  // The allocator sees to it: it holds wherever the rows are in order.
  lemma KeysAreUnique(t: Tables)
    requires DbInv(Memory(t))
    ensures KeysUnique(t)
  {
    forall a: RepId, b: RepId, s: SpaceId, k: Key | HeldBy(t, s, k, a) && HeldBy(t, s, k, b) ensures a == b {
      assert Memory(t).rows[a].key == Some(k) && Memory(t).rows[b].key == Some(k);
    }
  }

  // One statement: the rows with one of these keys.
  method Select(t: Tables, s: SpaceId, keys: seq<Key>, eligibleOnly: bool) returns (rows: map<Key, Candidate>)
    ensures forall k :: k in rows ==> k in keys && IsRow(t, s, k, eligibleOnly, rows[k])
    ensures forall k, r :: k in keys && HeldBy(t, s, k, r) && (eligibleOnly ==> StandsBehind(t, s, k, r)) ==> k in rows
  {
    rows := map[];
    var left := set r | r in t.reps && t.reps[r].space == s && t.reps[r].key.Some? && t.reps[r].key.value in keys
                        && (eligibleOnly ==> StandsBehind(t, s, t.reps[r].key.value, r));
    ghost var all := left;
    while left != {}
      invariant left <= all
      invariant forall k :: k in rows ==> k in keys && IsRow(t, s, k, eligibleOnly, rows[k])
      invariant forall r :: r in all - left ==> t.reps[r].key.value in rows
      decreases left
    {
      var r :| r in left;
      rows := rows[t.reps[r].key.value := Candidate(t.reps[r].key.value, r, t.reps[r].identity)];
      left := left - {r};
    }
    forall k, r | k in keys && HeldBy(t, s, k, r) && (eligibleOnly ==> StandsBehind(t, s, k, r)) ensures k in rows { assert r in all - left; }
  }

  ghost predicate IsRow(t: Tables, s: SpaceId, k: Key, eligibleOnly: bool, c: Candidate) {
    && c.key == k && HeldBy(t, s, k, c.rep) && c.identity == t.reps[c.rep].identity
    && (eligibleOnly ==> StandsBehind(t, s, k, c.rep))
  }

  // The lookup both are built on: chunk after chunk of distinct keys.
  method Lookup(t: Tables, s: SpaceId, unique: seq<Key>, eligibleOnly: bool) returns (found: map<Key, Candidate>)
    ensures forall k :: k in found ==> k in unique && IsRow(t, s, k, eligibleOnly, found[k])
    ensures forall k, r :: k in unique && HeldBy(t, s, k, r) && (eligibleOnly ==> StandsBehind(t, s, k, r)) ==> k in found
  {
    found := map[];
    var start := 0;
    while start < |unique|
      invariant 0 <= start <= |unique|
      invariant forall k :: k in found ==> k in unique && IsRow(t, s, k, eligibleOnly, found[k])
      invariant forall k, r :: k in unique[..start] && HeldBy(t, s, k, r) && (eligibleOnly ==> StandsBehind(t, s, k, r)) ==> k in found
    {
      var end := if start + KEYS_PER_QUERY < |unique| then start + KEYS_PER_QUERY else |unique|;
      var rows := Select(t, s, unique[start..end], eligibleOnly);
      assert unique[..end] == unique[..start] + unique[start..end];
      found := found + rows;
      start := end;
    }
    assert unique[..start] == unique;
  }

  // `by_ann_keys`: exactly the keys some row of the space holds, whatever its state.
  method ByAnnKeys(t: Tables, s: SpaceId, keys: seq<Key>) returns (found: map<Key, Candidate>)
    requires KeysUnique(t)
    ensures forall k :: k in found <==> k in keys && exists r :: HeldBy(t, s, k, r)
    ensures forall k, r :: k in found && HeldBy(t, s, k, r) ==> found[k].rep == r
  {
    found := Lookup(t, s, Unique(keys), false);
    forall k | k in found ensures exists r :: HeldBy(t, s, k, r) { assert HeldBy(t, s, k, found[k].rep); }
  }

  // The order-preserving filter of distinct keys by what SQLite stands behind.
  function Filtered(t: Tables, s: SpaceId, unique: seq<Key>): seq<Key> {
    if unique == [] then []
    else
      var init, last := Filtered(t, s, unique[..|unique| - 1]), unique[|unique| - 1];
      if IsEligibleKey(t, s, last) then init + [last] else init
  }

  // `resolve_ann_candidates`: for any keys of any index, stale or not, the answer is the eligible ones
  // among them, each once, in the order they first came.
  method ResolveAnnCandidates(t: Tables, s: SpaceId, keys: seq<Key>) returns (candidates: seq<Candidate>)
    requires KeysUnique(t)
    ensures |candidates| == |Filtered(t, s, Unique(keys))|
    ensures forall i :: 0 <= i < |candidates| ==>
      candidates[i].key == Filtered(t, s, Unique(keys))[i] && IsRow(t, s, candidates[i].key, true, candidates[i])
  {
    var unique := Unique(keys);
    var found := Lookup(t, s, unique, true);
    forall k | k in unique ensures k in found <==> IsEligibleKey(t, s, k) { if k in found { assert StandsBehind(t, s, k, found[k].rep); } }
    candidates := [];
    var n := 0;
    while n < |unique|
      invariant 0 <= n <= |unique|
      invariant |candidates| == |Filtered(t, s, unique[..n])|
      invariant forall i :: 0 <= i < |candidates| ==>
        candidates[i].key == Filtered(t, s, unique[..n])[i] && IsRow(t, s, candidates[i].key, true, candidates[i])
    {
      assert unique[..n + 1][..n] == unique[..n];
      assert unique[n] in unique;
      if unique[n] in found { candidates := candidates + [found[unique[n]]]; }
      n := n + 1;
    }
    assert unique[..n] == unique;
  }

  // ----- what the filter is -----

  // Where a key first comes.
  function FirstIndex(keys: seq<Key>, k: Key): (i: nat)
    requires k in keys
    ensures i < |keys| && keys[i] == k
    ensures forall j :: 0 <= j < i ==> keys[j] != k
  {
    if keys[0] == k then 0 else 1 + FirstIndex(keys[1..], k)
  }

  lemma {:induction false} UniqueKeepsOrder(keys: seq<Key>, i: nat, j: nat)
    requires i < j < |Unique(keys)|
    ensures Unique(keys)[i] in keys && Unique(keys)[j] in keys
    ensures FirstIndex(keys, Unique(keys)[i]) < FirstIndex(keys, Unique(keys)[j])
    decreases |keys|
  {
    var u, init := Unique(keys), keys[..|keys| - 1];
    var a, b := u[i], u[j];
    assert a in u && b in u;
    assert keys == init + [keys[|keys| - 1]];
    FirstInPrefix(init, keys, a);
    if j < |Unique(init)| {
      UniqueKeepsOrder(init, i, j);
      FirstInPrefix(init, keys, b);
    } else {
      assert Unique(init)[i] == a && a in Unique(init);
      assert b !in init;
      assert forall m :: 0 <= m < |init| ==> keys[m] == init[m];
    }
  }

  lemma FirstInPrefix(init: seq<Key>, keys: seq<Key>, k: Key)
    requires init <= keys
    ensures k in init ==> k in keys && FirstIndex(keys, k) == FirstIndex(init, k)
  {
    if k in init {
      var i := FirstIndex(init, k);
      assert keys[i] == init[i] && forall j :: 0 <= j < i ==> keys[j] == init[j];
    }
  }

  // One after the other as they first come.
  ghost predicate InOrder(f: seq<Key>, keys: seq<Key>) {
    && (forall k :: k in f ==> k in keys)
    && forall i, j | 0 <= i < j < |f| && f[i] in keys && f[j] in keys :: FirstIndex(keys, f[i]) < FirstIndex(keys, f[j])
  }

  lemma {:induction false} FilterKeeps(t: Tables, s: SpaceId, unique: seq<Key>)
    requires forall i, j :: 0 <= i < j < |unique| ==> unique[i] != unique[j]
    ensures forall k :: k in Filtered(t, s, unique) <==> k in unique && IsEligibleKey(t, s, k)
    ensures InOrder(Filtered(t, s, unique), unique)
    decreases |unique|
  {
    if unique != [] {
      var init, last := unique[..|unique| - 1], unique[|unique| - 1];
      FilterKeeps(t, s, init);
      assert unique == init + [last];
      var f, g := Filtered(t, s, unique), Filtered(t, s, init);
      assert f == if IsEligibleKey(t, s, last) then g + [last] else g;
      forall i, j | 0 <= i < j < |f| && f[i] in unique && f[j] in unique
        ensures FirstIndex(unique, f[i]) < FirstIndex(unique, f[j])
      {
        assert g[i] in g && f[i] == g[i];
        FirstInPrefix(init, unique, f[i]);
        if j < |g| {
          assert g[j] in g && f[j] == g[j];
          FirstInPrefix(init, unique, f[j]);
        } else {
          LastIsLast(unique);
        }
      }
    }
  }

  lemma LastIsLast(unique: seq<Key>)
    requires unique != [] && forall i, j :: 0 <= i < j < |unique| ==> unique[i] != unique[j]
    ensures FirstIndex(unique, unique[|unique| - 1]) == |unique| - 1
  {}

  // The lookup equals the order-preserving, duplicate-free filter by current eligibility.
  lemma LookupIsFilter(t: Tables, s: SpaceId, keys: seq<Key>)
    ensures var f := Filtered(t, s, Unique(keys));
      && (forall k :: k in f <==> k in keys && IsEligibleKey(t, s, k))
      && InOrder(f, keys)
  {
    var u, f := Unique(keys), Filtered(t, s, Unique(keys));
    FilterKeeps(t, s, u);
    forall i, j | 0 <= i < j < |f| && f[i] in keys && f[j] in keys ensures FirstIndex(keys, f[i]) < FirstIndex(keys, f[j]) {
      assert f[i] in f && f[j] in f;
      UniqueKeepsOrder(keys, FirstIndex(u, f[i]), FirstIndex(u, f[j]));
    }
  }

  // A representation being erased, or erased, is refused whatever an index still answers.
  lemma ErasingIsRefused(t: Tables, s: SpaceId, keys: seq<Key>, k: Key, r: RepId)
    requires KeysUnique(t) && HeldBy(t, s, k, r) && (t.reps[r].state.Erasing? || t.reps[r].state.Erased?)
    ensures k !in Filtered(t, s, Unique(keys))
  {
    LookupIsFilter(t, s, keys);
  }
}
