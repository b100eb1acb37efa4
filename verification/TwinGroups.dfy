/** The review tool's `_verified`: photographs declared the same picture form groups, and each
    photograph of the manifest is kept once or left out for one reason. */
module TwinGroups {
  import opened Store

  // File names and digests are both texts, numbered in their sort order.
  type Text = nat

  datatype Verdict = Verified | Incorrect | Uncertain | Excluded

  datatype Record = Record(verdict: Verdict, corrected: bool, flagged: bool, twin: Option<Text>)
  {
    predicate Confirmed() { verdict.Verified? || (verdict.Incorrect? && corrected) }
  }

  // ----- union-find -----

  // The parent of a file is the file itself or an earlier one.
  predicate Descending(group: map<Text, Text>) {
    forall f {:trigger ParentOk(group, f)} :: f in group ==> ParentOk(group, f)
  }

  predicate ParentOk(group: map<Text, Text>, f: Text)
    requires f in group
  {
    group[f] in group && group[f] <= f
  }

  function RootOf(group: map<Text, Text>, f: Text): (r: Text)
    requires Descending(group) && f in group
    ensures r in group && group[r] == r && r <= f
    decreases f
  {
    assert ParentOk(group, f);
    if group[f] == f then f else RootOf(group, group[f])
  }

  method Root(group: map<Text, Text>, file: Text) returns (f: Text)
    requires Descending(group) && file in group
    ensures f == RootOf(group, file)
  {
    f := file;
    while group[f] != f
      invariant f in group && RootOf(group, f) == RootOf(group, file)
      decreases f
    {
      assert ParentOk(group, f);
      f := group[f];
    }
  }

  // Making one root the child of another moves exactly the files it stood for.
  lemma {:induction false} RootAfterUnion(group: map<Text, Text>, a: Text, b: Text, f: Text)
    requires Descending(group) && a in group && b in group && group[a] == a && group[b] == b && a <= b && f in group
    ensures Descending(group[b := a])
    ensures RootOf(group[b := a], f) == if RootOf(group, f) == b then a else RootOf(group, f)
    decreases f
  {
    var u := group[b := a];
    forall g | g in u ensures ParentOk(u, g) { if g != b { assert ParentOk(group, g); } }
    assert ParentOk(group, f);
    if group[f] != f {
      RootAfterUnion(group, a, b, group[f]);
    } else if f == b && a != b {
      assert RootOf(u, a) == a;
    }
  }

  // ----- what "the same picture" means -----

  type Links = set<(Text, Text)>

  ghost predicate IsStep(links: Links, x: Text, y: Text) { (x, y) in links || (y, x) in links }

  ghost predicate StepAt(links: Links, path: seq<Text>, i: nat)
    requires i + 1 < |path|
  {
    IsStep(links, path[i], path[i + 1])
  }

  ghost predicate IsPath(links: Links, path: seq<Text>) {
    && |path| > 0
    && forall i: nat {:trigger StepAt(links, path, i)} :: i + 1 < |path| ==> StepAt(links, path, i)
  }

  ghost predicate Joins(links: Links, path: seq<Text>, x: Text, y: Text) {
    IsPath(links, path) && path[0] == x && path[|path| - 1] == y
  }

  // A chain of declarations leads from one to the other.
  ghost predicate Linked(links: Links, x: Text, y: Text) { exists path :: Joins(links, path, x, y) }

  lemma LinkedToItself(links: Links, x: Text)
    ensures Linked(links, x, x)
  {
    assert Joins(links, [x], x, x);
  }

  lemma LinkedOnward(links: Links, x: Text, y: Text, z: Text)
    requires Linked(links, x, y) && Linked(links, y, z)
    ensures Linked(links, x, z)
  {
    var p :| Joins(links, p, x, y);
    var q :| Joins(links, q, y, z);
    var path := p + q[1..];
    forall i: nat | i + 1 < |path| ensures StepAt(links, path, i) {
      if i < |p| - 1 {
        assert StepAt(links, p, i) && path[i] == p[i] && path[i + 1] == p[i + 1];
      } else {
        assert StepAt(links, q, i - |p| + 1) && path[i] == q[i - |p| + 1] && path[i + 1] == q[i - |p| + 2];
      }
    }
    assert Joins(links, path, x, z);
  }

  lemma LinkedBack(links: Links, x: Text, y: Text)
    requires Linked(links, x, y)
    ensures Linked(links, y, x)
  {
    var p :| Joins(links, p, x, y);
    var path := seq(|p|, i requires 0 <= i < |p| => p[|p| - 1 - i]);
    forall i: nat | i + 1 < |path| ensures StepAt(links, path, i) {
      var j := |p| - 2 - i;
      assert StepAt(links, p, j) && path[i] == p[j + 1] && path[i + 1] == p[j];
    }
    assert Joins(links, path, y, x);
  }

  lemma LinkedStill(links: Links, more: Links, x: Text, y: Text)
    requires Linked(links, x, y) && links <= more
    ensures Linked(more, x, y)
  {
    var p :| Joins(links, p, x, y);
    forall i: nat | i + 1 < |p| ensures StepAt(more, p, i) { assert StepAt(links, p, i); }
    assert Joins(more, p, x, y);
  }

  lemma LinkedOnce(links: Links, x: Text, y: Text)
    requires (x, y) in links
    ensures Linked(links, x, y)
  {
    assert Joins(links, [x, y], x, y);
  }

  // ----- grouping -----

  // What the groups say after some declarations: declared pairs share a root, and every file is
  // linked to its root.
  ghost predicate Groups(group: map<Text, Text>, links: Links) {
    && Descending(group)
    && (forall l {:trigger ShareRoot(group, l)} :: l in links ==> ShareRoot(group, l))
    && (forall f {:trigger LinkedToRoot(group, links, f)} :: f in group ==> LinkedToRoot(group, links, f))
  }

  ghost predicate ShareRoot(group: map<Text, Text>, l: (Text, Text))
    requires Descending(group)
  {
    l.0 in group && l.1 in group && RootOf(group, l.0) == RootOf(group, l.1)
  }

  ghost predicate LinkedToRoot(group: map<Text, Text>, links: Links, f: Text)
    requires Descending(group) && f in group
  {
    Linked(links, f, RootOf(group, f))
  }

  lemma Union(group: map<Text, Text>, links: Links, f: Text, t: Text)
    requires Groups(group, links) && f in group && t in group
    ensures var x, y := RootOf(group, f), RootOf(group, t);
      var a, b := if x <= y then x else y, if x <= y then y else x;
      Groups(group[b := a], links + {(f, t)})
  {
    var x, y := RootOf(group, f), RootOf(group, t);
    var a, b := if x <= y then x else y, if x <= y then y else x;
    var u, more := group[b := a], links + {(f, t)};
    RootAfterUnion(group, a, b, f);
    forall l | l in more ensures ShareRoot(u, l) {
      if l in links { assert ShareRoot(group, l); }
      RootAfterUnion(group, a, b, l.0);
      RootAfterUnion(group, a, b, l.1);
    }
    forall g | g in u ensures LinkedToRoot(u, more, g) {
      RootAfterUnion(group, a, b, g);
      assert LinkedToRoot(group, links, g);
      LinkedStill(links, more, g, RootOf(group, g));
      if RootOf(group, g) == b {
        RootsAreLinked(group, links, f, t);
        if x <= y { LinkedBack(more, x, y); }
        LinkedOnward(more, g, b, a);
      }
    }
  }

  lemma RootsAreLinked(group: map<Text, Text>, links: Links, f: Text, t: Text)
    requires Groups(group, links) && f in group && t in group
    ensures Linked(links + {(f, t)}, RootOf(group, f), RootOf(group, t))
  {
    var more := links + {(f, t)};
    assert LinkedToRoot(group, links, f) && LinkedToRoot(group, links, t);
    LinkedStill(links, more, f, RootOf(group, f));
    LinkedBack(more, f, RootOf(group, f));
    LinkedOnce(more, f, t);
    LinkedOnward(more, RootOf(group, f), f, t);
    LinkedStill(links, more, t, RootOf(group, t));
    LinkedOnward(more, RootOf(group, f), t, RootOf(group, t));
  }

  // Sharing a root is being linked.
  lemma SameRootIffLinked(group: map<Text, Text>, links: Links, x: Text, y: Text)
    requires Groups(group, links) && x in group && y in group
    ensures RootOf(group, x) == RootOf(group, y) <==> Linked(links, x, y)
  {
    assert LinkedToRoot(group, links, x) && LinkedToRoot(group, links, y);
    if RootOf(group, x) == RootOf(group, y) {
      LinkedBack(links, y, RootOf(group, y));
      LinkedOnward(links, x, RootOf(group, x), y);
    }
    if Linked(links, x, y) {
      var p :| Joins(links, p, x, y);
      PathKeepsRoot(group, links, p);
    }
  }

  lemma {:induction false} PathKeepsRoot(group: map<Text, Text>, links: Links, path: seq<Text>)
    requires Groups(group, links) && IsPath(links, path) && path[0] in group
    ensures path[|path| - 1] in group && RootOf(group, path[|path| - 1]) == RootOf(group, path[0])
    decreases |path|
  {
    if |path| > 1 {
      assert StepAt(links, path, 0);
      var l := if (path[0], path[1]) in links then (path[0], path[1]) else (path[1], path[0]);
      assert l in links && ShareRoot(group, l);
      var rest := path[1..];
      forall i: nat | i + 1 < |rest| ensures StepAt(links, rest, i) { assert StepAt(links, path, i + 1); }
      PathKeepsRoot(group, links, rest);
    }
  }

  // The declarations that count, among the decisions on `files`: about another photograph of the
  // manifest.
  function DeclaredBy(entries: set<Text>, valid: map<Text, Record>, files: set<Text>): Links {
    set f | f in files && f in valid && valid[f].twin.Some? && valid[f].twin.value in entries :: (f, valid[f].twin.value)
  }

  function Declared(entries: set<Text>, valid: map<Text, Record>): Links { DeclaredBy(entries, valid, valid.Keys) }

  lemma DeclaredNext(entries: set<Text>, valid: map<Text, Record>, files: set<Text>, f: Text)
    requires f in valid
    ensures DeclaredBy(entries, valid, files + {f}) ==
      DeclaredBy(entries, valid, files) + if valid[f].twin.Some? && valid[f].twin.value in entries then {(f, valid[f].twin.value)} else {}
  {}

  lemma OwnGroups(entries: set<Text>, valid: map<Text, Record>, group: map<Text, Text>)
    requires group.Keys == entries && forall f :: f in group ==> group[f] == f
    ensures Groups(group, DeclaredBy(entries, valid, {}))
  {
    assert DeclaredBy(entries, valid, {}) == {};
    forall f | f in group ensures ParentOk(group, f) {}
    forall f | f in group ensures LinkedToRoot(group, {}, f) { LinkedToItself({}, f); }
  }

  // The loop that builds the groups; decisions come in any order.
  method GroupTwins(entries: set<Text>, valid: map<Text, Record>) returns (group: map<Text, Text>)
    requires valid.Keys <= entries
    ensures group.Keys == entries && Groups(group, Declared(entries, valid))
  {
    group := map f: Text | f in entries :: f;
    OwnGroups(entries, valid, group);
    var left: set<Text>, seen: set<Text> := valid.Keys, {};
    while left != {}
      invariant left + seen == valid.Keys && left !! seen
      invariant group.Keys == entries && Groups(group, DeclaredBy(entries, valid, seen))
      decreases left
    {
      var f :| f in left;
      DeclaredNext(entries, valid, seen, f);
      group := Declare(entries, group, f, valid[f].twin, DeclaredBy(entries, valid, seen));
      left, seen := left - {f}, seen + {f};
    }
    assert seen == valid.Keys;
  }

  method Declare(entries: set<Text>, group: map<Text, Text>, f: Text, twin: Option<Text>, ghost links: Links)
    returns (group': map<Text, Text>)
    requires group.Keys == entries && f in entries && Groups(group, links)
    ensures group'.Keys == entries
    ensures Groups(group', links + if twin.Some? && twin.value in entries then {(f, twin.value)} else {})
  {
    if twin.None? || twin.value !in group {
      assert links + {} == links;
      return group;
    }
    Union(group, links, f, twin.value);
    var x := Root(group, f);
    var y := Root(group, twin.value);
    group' := if x <= y then group[y := x] else group[x := y];
  }

  // Two photographs share a root exactly when a chain of valid declarations links them.
  lemma SharedRootIffDeclared(entries: set<Text>, valid: map<Text, Record>, group: map<Text, Text>, x: Text, y: Text)
    requires group.Keys == entries && Groups(group, Declared(entries, valid)) && x in entries && y in entries
    ensures RootOf(group, x) == RootOf(group, y) <==> Linked(Declared(entries, valid), x, y)
  {
    SameRootIffLinked(group, Declared(entries, valid), x, y);
  }

  // ----- the partition -----

  datatype Left = Kept | NotVerified | Flagged | Stale | Duplicate

  // Where the photographs decided so far went, and the roots and digests counted.
  datatype Sorting = Sorting(where: map<Text, Left>, counted: set<Text>)

  // What a kept photograph takes up: its group and its digest.
  function Marks(group: map<Text, Text>, digest: map<Text, Text>, f: Text): set<Text>
    requires Descending(group) && f in group && f in digest
  {
    {RootOf(group, f), digest[f]}
  }

  method SortFiles(files: set<Text>) returns (list: seq<Text>)
    ensures forall f :: f in list <==> f in files
    ensures forall i, j :: 0 <= i < j < |list| ==> list[i] < list[j]
  {
    list := [];
    var left := files;
    while left != {}
      invariant left <= files && forall f :: f in list <==> f in files && f !in left
      invariant forall i, j :: 0 <= i < j < |list| ==> list[i] < list[j]
      invariant forall i, f :: 0 <= i < |list| && f in left ==> list[i] < f
      decreases left
    {
      var least := Least(left);
      list, left := list + [least], left - {least};
    }
  }

  method Least(files: set<Text>) returns (least: Text)
    requires files != {}
    ensures least in files && forall f :: f in files ==> least <= f
  {
    least :| least in files;
    var left := files - {least};
    while left != {}
      invariant left <= files && least in files && forall f :: f in files && f !in left ==> least <= f
      decreases left
    {
      var f :| f in left;
      if f < least { least := f; }
      left := left - {f};
    }
  }

  // How a decided photograph is placed, knowing what the kept ones before it took up.
  ghost predicate PlacedRight(group: map<Text, Text>, digest: map<Text, Text>, valid: map<Text, Record>, where: map<Text, Left>, f: Text)
    requires Descending(group) && group.Keys <= digest.Keys && valid.Keys <= group.Keys && f in valid && f in where
  {
    if !valid[f].Confirmed() then where[f].NotVerified?
    else if valid[f].flagged then where[f].Flagged?
    else if exists g :: g in where && g in valid && g < f && where[g].Kept? && Marks(group, digest, g) * Marks(group, digest, f) != {} then where[f].Duplicate?
    else where[f].Kept?
  }

  ghost predicate SortedRight(group: map<Text, Text>, digest: map<Text, Text>, valid: map<Text, Record>, sorting: Sorting)
    requires Descending(group) && group.Keys <= digest.Keys && valid.Keys <= group.Keys
  {
    && sorting.where.Keys <= valid.Keys
    && (forall f :: f in sorting.where ==> PlacedRight(group, digest, valid, sorting.where, f))
    && (forall m :: m in sorting.counted <==> exists f :: f in sorting.where && sorting.where[f].Kept? && m in Marks(group, digest, f))
  }

  // One photograph, in file order.
  method SortOne(group: map<Text, Text>, digest: map<Text, Text>, valid: map<Text, Record>, sorting: Sorting, f: Text)
    returns (sorting': Sorting)
    requires Descending(group) && group.Keys <= digest.Keys && valid.Keys <= group.Keys && f in valid
    requires SortedRight(group, digest, valid, sorting) && forall g :: g in sorting.where ==> g < f
    ensures SortedRight(group, digest, valid, sorting') && sorting'.where.Keys == sorting.where.Keys + {f}
  {
    var root := Root(group, f);
    var place := if !valid[f].Confirmed() then NotVerified
                 else if valid[f].flagged then Flagged
                 else if root in sorting.counted || digest[f] in sorting.counted then Duplicate
                 else Kept;
    var counted: set<Text> := if place.Kept? then sorting.counted + {root, digest[f]} else sorting.counted;
    sorting' := Sorting(sorting.where[f := place], counted);
    var where: map<Text, Left> := sorting'.where;
    CountedIffTaken(group, digest, valid, sorting, f);
    forall g | g in where ensures PlacedRight(group, digest, valid, where, g) {
      if g != f { StillPlaced(group, digest, valid, sorting.where, where, g, f); }
    }
    forall m ensures m in counted <==> exists g :: g in where && where[g].Kept? && m in Marks(group, digest, g) {
      if m in counted && m !in sorting.counted { assert where[f].Kept? && m in Marks(group, digest, f); }
      if m in sorting.counted {
        var g :| g in sorting.where && sorting.where[g].Kept? && m in Marks(group, digest, g);
        assert g in where && where[g].Kept?;
      }
    }
  }

  lemma CountedIffTaken(group: map<Text, Text>, digest: map<Text, Text>, valid: map<Text, Record>, sorting: Sorting, f: Text)
    requires Descending(group) && group.Keys <= digest.Keys && valid.Keys <= group.Keys && f in valid
    requires SortedRight(group, digest, valid, sorting)
    ensures RootOf(group, f) in sorting.counted || digest[f] in sorting.counted <==>
      exists g :: g in sorting.where && sorting.where[g].Kept? && Marks(group, digest, g) * Marks(group, digest, f) != {}
  {
    forall m | m in sorting.counted && m in Marks(group, digest, f)
      ensures exists g :: g in sorting.where && sorting.where[g].Kept? && Marks(group, digest, g) * Marks(group, digest, f) != {}
    {
      var g :| g in sorting.where && sorting.where[g].Kept? && m in Marks(group, digest, g);
      assert m in Marks(group, digest, g) * Marks(group, digest, f);
    }
    if g :| g in sorting.where && sorting.where[g].Kept? && Marks(group, digest, g) * Marks(group, digest, f) != {} {
      var m :| m in Marks(group, digest, g) * Marks(group, digest, f);
      assert m in sorting.counted;
    }
  }

  // A later photograph changes nothing about an earlier one.
  lemma StillPlaced(group: map<Text, Text>, digest: map<Text, Text>, valid: map<Text, Record>, before: map<Text, Left>,
                    after: map<Text, Left>, g: Text, f: Text)
    requires Descending(group) && group.Keys <= digest.Keys && valid.Keys <= group.Keys && f in valid && g in valid
    requires before.Keys <= valid.Keys && f in after && after == before[f := after[f]] && g in before && g < f
    requires PlacedRight(group, digest, valid, before, g)
    ensures PlacedRight(group, digest, valid, after, g)
  {}

  // `_verified`: every photograph of the manifest lands in exactly one place.
  method Verified(entries: set<Text>, valid: map<Text, Record>, stale: set<Text>, digest: map<Text, Text>)
    returns (group: map<Text, Text>, where: map<Text, Left>)
    requires valid.Keys <= entries && stale <= entries && valid.Keys !! stale && entries <= digest.Keys
    ensures group.Keys == entries && Groups(group, Declared(entries, valid))
    ensures where.Keys == entries
    ensures forall f :: f in valid ==> PlacedRight(group, digest, valid, where, f)
    ensures forall f :: f in stale ==> where[f].Stale?
    ensures forall f :: f in entries && f !in valid && f !in stale ==> where[f].NotVerified?
  {
    group := GroupTwins(entries, valid);
    var files := SortFiles(valid.Keys);
    var sorting := Sorting(map[], {});
    var n := 0;
    while n < |files|
      invariant 0 <= n <= |files|
      invariant SortedRight(group, digest, valid, sorting)
      invariant forall f :: f in sorting.where <==> f in files[..n]
    {
      assert files[n] in files;
      forall g | g in sorting.where ensures g < files[n] {
        var i :| 0 <= i < n && files[..n][i] == g;
        assert files[i] == g;
      }
      sorting := SortOne(group, digest, valid, sorting, files[n]);
      assert files[..n + 1] == files[..n] + [files[n]];
      n := n + 1;
    }
    assert files[..n] == files;
    where := map f | f in entries ::
      if f in sorting.where then sorting.where[f] else if f in stale then Stale else NotVerified;
    forall f | f in valid ensures PlacedRight(group, digest, valid, where, f) {
      SamePlaces(group, digest, valid, sorting.where, where, f);
    }
  }

  lemma SamePlaces(group: map<Text, Text>, digest: map<Text, Text>, valid: map<Text, Record>, before: map<Text, Left>, after: map<Text, Left>, f: Text)
    requires Descending(group) && group.Keys <= digest.Keys && valid.Keys <= group.Keys
    requires before.Keys == valid.Keys <= after.Keys && forall g :: g in before ==> after[g] == before[g]
    requires f in valid && PlacedRight(group, digest, valid, before, f)
    ensures PlacedRight(group, digest, valid, after, f)
  {}

  // At most one photograph per group and per digest is kept; and one is dropped as a duplicate only
  // for an earlier one that is kept.
  lemma KeptOncePerGroup(group: map<Text, Text>, digest: map<Text, Text>, valid: map<Text, Record>, where: map<Text, Left>, f: Text, g: Text)
    requires Descending(group) && group.Keys <= digest.Keys && valid.Keys <= group.Keys && valid.Keys <= where.Keys
    requires f in valid && g in valid && f < g && where[f].Kept? && where[g].Kept?
    requires PlacedRight(group, digest, valid, where, f) && PlacedRight(group, digest, valid, where, g)
    ensures RootOf(group, f) != RootOf(group, g) && digest[f] != digest[g]
  {
    var a, b := Marks(group, digest, f), Marks(group, digest, g);
    assert a * b == {};
    assert forall m :: m in a ==> m !in b by { assert forall m :: m in a && m in b <==> m in a * b; }
  }

  // ----- from the log to the partition -----

  // A decision as it was logged: the photograph's bytes and label as they were then.
  datatype Logged = Logged(file: Text, digest: Text, identity: Text, record: Record)

  ghost predicate LastAt(records: seq<Logged>, f: Text, n: nat) {
    && n < |records| && records[n].file == f
    && forall m :: n < m < |records| ==> records[m].file != f
  }

  predicate Decided(records: seq<Logged>, f: Text) { exists n :: 0 <= n < |records| && records[n].file == f }

  function LastOf(records: seq<Logged>, f: Text): (d: Option<Logged>)
    ensures d.Some? <==> Decided(records, f)
    ensures d.Some? ==> exists n: nat :: LastAt(records, f, n) && d == Some(records[n])
  {
    if records == [] then None
    else
      var last := |records| - 1;
      if records[last].file == f then
        assert LastAt(records, f, last);
        Some(records[last])
      else
        var d := LastOf(records[..last], f);
        assert forall n :: 0 <= n < last ==> records[..last][n] == records[n];
        assert forall n: nat :: LastAt(records[..last], f, n) ==> LastAt(records, f, n);
        d
  }

  // The bytes and the proposed label are still what was decided about.
  predicate StillDescribes(labels: map<Text, Text>, digest: map<Text, Text>, d: Logged) {
    d.file in labels && d.file in digest && d.digest == digest[d.file] && d.identity == labels[d.file]
  }

  predicate IsValid(labels: map<Text, Text>, digest: map<Text, Text>, records: seq<Logged>, f: Text) {
    LastOf(records, f).Some? && StillDescribes(labels, digest, LastOf(records, f).value)
  }

  function ValidOf(labels: map<Text, Text>, digest: map<Text, Text>, records: seq<Logged>): (valid: map<Text, Record>)
    ensures valid.Keys <= labels.Keys
  {
    map f | f in labels && IsValid(labels, digest, records, f) :: LastOf(records, f).value.record
  }

  function StaleOf(labels: map<Text, Text>, digest: map<Text, Text>, records: seq<Logged>): set<Text> {
    set f | f in labels && LastOf(records, f).Some? && !IsValid(labels, digest, records, f)
  }

  // `_latest`.
  method Latest(labels: map<Text, Text>, records: seq<Logged>) returns (latest: map<Text, Logged>)
    ensures forall f :: f in latest <==> f in labels && Decided(records, f)
    ensures forall f :: f in latest ==> LastOf(records, f) == Some(latest[f])
  {
    latest := map[];
    var n := 0;
    while n < |records|
      invariant 0 <= n <= |records|
      invariant forall f :: f in latest <==> f in labels && LastOf(records[..n], f).Some?
      invariant forall f :: f in latest ==> LastOf(records[..n], f) == Some(latest[f])
    {
      var record := records[n];
      assert records[..n + 1][..n] == records[..n];
      if record.file in labels { latest := latest[record.file := record]; }
      n := n + 1;
    }
    assert records[..n] == records;
  }

  // `_split`.
  method SplitDecisions(labels: map<Text, Text>, digest: map<Text, Text>, records: seq<Logged>) returns (valid: map<Text, Record>, stale: set<Text>)
    requires labels.Keys <= digest.Keys
    ensures valid == ValidOf(labels, digest, records) && stale == StaleOf(labels, digest, records)
  {
    var latest := Latest(labels, records);
    valid, stale := map[], {};
    var left := latest.Keys;
    while left != {}
      invariant left <= latest.Keys
      invariant forall f :: f in valid <==> f in latest && f !in left && IsValid(labels, digest, records, f)
      invariant forall f :: f in valid ==> valid[f] == latest[f].record
      invariant forall f :: f in stale <==> f in latest && f !in left && !IsValid(labels, digest, records, f)
      decreases left
    {
      var f :| f in left;
      if latest[f].digest == digest[f] && latest[f].identity == labels[f] { valid := valid[f := latest[f].record]; } else { stale := stale + {f}; }
      left := left - {f};
    }
  }

  lemma LastIsUnique(records: seq<Logged>, f: Text, n: nat)
    requires LastAt(records, f, n)
    ensures LastOf(records, f) == Some(records[n])
  {
    assert Decided(records, f);
    var m: nat :| LastAt(records, f, m) && LastOf(records, f) == Some(records[m]);
  }

  // Where the last logged decision about a photograph puts it.
  ghost predicate PlacedAsLogged(labels: map<Text, Text>, digest: map<Text, Text>, records: seq<Logged>,
                                 group: map<Text, Text>, where: map<Text, Left>, f: Text, n: nat)
    requires Descending(group) && group.Keys == labels.Keys == where.Keys && labels.Keys <= digest.Keys
    requires f in labels && LastAt(records, f, n)
  {
    var valid := ValidOf(labels, digest, records);
    if !StillDescribes(labels, digest, records[n]) then where[f].Stale?
    else f in valid && valid[f] == records[n].record && PlacedRight(group, digest, valid, where, f)
  }

  // `verified`: of every photograph of the manifest the last logged decision, if there is one, and
  // whether it still describes it, say where it goes.
  method VerifiedFromLog(labels: map<Text, Text>, digest: map<Text, Text>, records: seq<Logged>)
    returns (group: map<Text, Text>, where: map<Text, Left>)
    requires labels.Keys <= digest.Keys
    ensures group.Keys == labels.Keys == where.Keys
    ensures Groups(group, Declared(labels.Keys, ValidOf(labels, digest, records)))
    ensures forall f :: f in labels && !Decided(records, f) ==> where[f].NotVerified?
    ensures forall f, n: nat :: f in labels && LastAt(records, f, n) ==> PlacedAsLogged(labels, digest, records, group, where, f, n)
  {
    var valid, stale := SplitDecisions(labels, digest, records);
    group, where := Verified(labels.Keys, valid, stale, digest);
    forall f, n: nat | f in labels && LastAt(records, f, n) ensures PlacedAsLogged(labels, digest, records, group, where, f, n) {
      LastIsUnique(records, f, n);
    }
  }
}
