/**
 `sy apply` for rendered configuration files: write what changed, and delete files that are
 no longer rendered and still have the bytes recorded at the previous apply.
 */
module AppliedConfigs {
  import opened Basics

  type Bytes = seq<nat>
  type Digest = string

  // Components of a path relative to the target; anything but a plain name is `Odd` (root, "..", ".").
  datatype Component = Normal(name: string) | Odd

  type Rel = seq<Component>

  // Where a name is: at its own path under the target, or wherever a link leads.
  datatype Place = At(path: Rel) | Elsewhere(id: nat)

  type Inode = nat

  // The file each name stands for (several names may stand for one), the contents of files, and where a path
  // with a symbolic link among its components leads.
  datatype Tree = Tree(names: map<Place, Inode>, files: map<Inode, Bytes>, alias: map<Rel, Place>)

  // The digest file of the previous apply; paths are stored relative to the target.
  datatype Manifest = Missing | Corrupt | Saved(digests: map<Rel, Digest>)

  type Hash = Bytes -> Digest

  function Resolve(t: Tree, p: Rel): Place {
    if p in t.alias then t.alias[p] else At(p)
  }

  function ReadAt(t: Tree, q: Place): Option<Bytes> {
    if q in t.names && t.names[q] in t.files then Some(t.files[t.names[q]]) else None
  }

  function Read(t: Tree, p: Rel): Option<Bytes> {
    ReadAt(t, Resolve(t, p))
  }

  // A number from `k` on that is not in use.
  function Unused(s: set<Inode>, k: Inode): (i: Inode)
    ensures i >= k && i !in s
    decreases s
  {
    if k in s then Unused(s - {k}, k + 1) else k
  }

  // Writing changes the file for all its names; a new name gets a new file.
  function WriteAt(t: Tree, q: Place, b: Bytes): Tree {
    var i := if q in t.names then t.names[q] else Unused(t.names.Values, 0);
    t.(names := t.names[q := i], files := t.files[i := b])
  }

  function Write(t: Tree, p: Rel, b: Bytes): Tree {
    WriteAt(t, Resolve(t, p), b)
  }

  datatype Rendered = Rendered(path: Rel, bytes: Bytes)

  function Paths(list: seq<Rendered>): set<Rel> {
    set i | 0 <= i < |list| :: list[i].path
  }

  // The tree after writing a list in order, and the paths reported as changed on the way.
  function Written(t: Tree, list: seq<Rendered>): Tree {
    if list == [] then t
    else
      var before, r := Written(t, list[..|list| - 1]), list[|list| - 1];
      if Read(before, r.path) == Some(r.bytes) then before else Write(before, r.path, r.bytes)
  }

  function Changed(t: Tree, list: seq<Rendered>): seq<Rel> {
    if list == [] then []
    else
      var n := |list| - 1;
      Changed(t, list[..n]) + if Read(Written(t, list[..n]), list[n].path) == Some(list[n].bytes)
        then [] else [list[n].path]
  }

  // What a dry run reports: every comparison is against the tree as it stands.
  function WouldChange(t: Tree, list: seq<Rendered>): seq<Rel> {
    if list == [] then []
    else
      var n := |list| - 1;
      WouldChange(t, list[..n]) + if Read(t, list[n].path) == Some(list[n].bytes) then [] else [list[n].path]
  }

  // Digests recorded by this apply; a later record of the same path replaces the earlier.
  function Recorded(hash: Hash, list: seq<Rendered>): map<Rel, Digest> {
    if list == [] then map[]
    else Recorded(hash, list[..|list| - 1])[list[|list| - 1].path := hash(list[|list| - 1].bytes)]
  }

  predicate AllNormal(p: Rel) {
    forall i :: 0 <= i < |p| ==> p[i].Normal?
  }

  // A file that may go: recorded before, not rendered now, inside the target without links, unedited.
  predicate Removable(hash: Hash, t: Tree, previous: map<Rel, Digest>, current: map<Rel, Digest>, p: Rel) {
    && p in previous && p !in current && AllNormal(p) && p !in t.alias
    && ReadAt(t, At(p)).Some? && hash(ReadAt(t, At(p)).value) == previous[p]
  }

  function Removed(hash: Hash, t: Tree, previous: map<Rel, Digest>, current: map<Rel, Digest>): set<Rel> {
    set p | p in previous && Removable(hash, t, previous, current, p)
  }

  // Removing names leaves the files to the names they have elsewhere.
  function Without(t: Tree, gone: set<Rel>): Tree {
    t.(names := map q | q in t.names && !(q.At? && q.path in gone) :: t.names[q])
  }

  // The tree after a completed apply.
  function Applied(hash: Hash, t: Tree, list: seq<Rendered>, previous: map<Rel, Digest>): Tree {
    Without(Written(t, list), Removed(hash, Written(t, list), previous, Recorded(hash, list)))
  }

  predicate UnderWaybar(p: Rel) {
    p != [] && p[0] == Normal("waybar")
  }

  // ----- the apply as it runs -----

  datatype Report = Report(changed: seq<Rel>, removed: set<Rel>, waybarRemoved: bool)

  class Target {
    const hash: Hash
    var tree: Tree
    var manifest: Manifest

    constructor (hash: Hash, tree: Tree, manifest: Manifest)
      ensures this.hash == hash && this.tree == tree && this.manifest == manifest
    {
      this.hash, this.tree, this.manifest := hash, tree, manifest;
    }

    /** Delete what may go and record the new manifest; a corrupt manifest stops before either. */
    method Finish(current: map<Rel, Digest>, dry: bool) returns (ok: bool, removed: set<Rel>, waybar: bool)
      modifies this
      ensures ok <==> !old(manifest).Corrupt?
      ensures !ok ==> tree == old(tree) && manifest == old(manifest) && removed == {}
      ensures ok ==> removed == Removed(hash, old(tree), Previous(old(manifest)), current)
      ensures waybar <==> exists p :: p in removed && p != [] && p[0] == Normal("waybar")
      ensures ok && dry ==> tree == old(tree) && manifest == old(manifest)
      ensures ok && !dry ==> tree == Without(old(tree), removed) && manifest == Saved(current)
    {
      removed, waybar := {}, false;
      if manifest.Corrupt? {
        return false, {}, false;
      }
      var previous := Previous(manifest);
      ghost var start := tree;
      var todo := previous.Keys;
      assert Without(start, {}) == start;
      while todo != {}
        invariant todo <= previous.Keys && manifest == old(manifest)
        invariant removed == set p | p in previous && p !in todo && Removable(hash, start, previous, current, p)
        invariant waybar <==> exists p :: p in removed && UnderWaybar(p)
        invariant tree == if dry then start else Without(start, removed)
        decreases todo
      {
        var p :| p in todo;
        todo := todo - {p};
        assert Removable(hash, tree, previous, current, p) <==> Removable(hash, start, previous, current, p);
        if Removable(hash, tree, previous, current, p) {
          waybar := waybar || UnderWaybar(p);
          if !dry {
            tree := Without(tree, {p});
            assert tree == Without(start, removed + {p});
          }
          removed := removed + {p};
        }
      }
      if !dry {
        manifest := Saved(current);
      }
      ok := true;
    }

    /** Compare, write and record every rendered file, then finish. */
    method Apply(list: seq<Rendered>, dry: bool) returns (ok: bool, report: Report)
      modifies this
      ensures ok <==> !old(manifest).Corrupt?
      ensures report.changed == if dry then WouldChange(old(tree), list) else Changed(old(tree), list)
      ensures var t := if dry then old(tree) else Written(old(tree), list);
              && report.removed == (if ok then Removed(hash, t, Previous(old(manifest)), Recorded(hash, list)) else {})
              && tree == (if dry || !ok then t else Without(t, report.removed))
              && manifest == (if dry || !ok then old(manifest) else Saved(Recorded(hash, list)))
    {
      var changed: seq<Rel>, current: map<Rel, Digest> := [], map[];
      for i := 0 to |list|
        invariant current == Recorded(hash, list[..i]) && manifest == old(manifest)
        invariant tree == if dry then old(tree) else Written(old(tree), list[..i])
        invariant changed == if dry then WouldChange(old(tree), list[..i]) else Changed(old(tree), list[..i])
      {
        assert list[..i + 1][..i] == list[..i];
        current := current[list[i].path := hash(list[i].bytes)];
        if Read(tree, list[i].path) != Some(list[i].bytes) {
          if !dry {
            tree := Write(tree, list[i].path, list[i].bytes);
          }
          changed := changed + [list[i].path];
        }
      }
      assert list[..|list|] == list;
      var removed, waybar;
      ok, removed, waybar := Finish(current, dry);
      report := Report(changed, removed, waybar);
    }
  }

  function Previous(m: Manifest): map<Rel, Digest> {
    if m.Saved? then m.digests else map[]
  }

  // ----- dry run against real run, and repetition -----

  // The file a place stands for; a place without one stands for the file that would be created there.
  datatype FileId = Existing(inode: Inode) | Absent(place: Place)

  function FileOf(t: Tree, q: Place): FileId {
    if q in t.names then Existing(t.names[q]) else Absent(q)
  }

  // The file an entry is written to.
  function Destination(t: Tree, r: Rendered): FileId {
    FileOf(t, Resolve(t, r.path))
  }

  // Entry n is the last one written to the file f.
  ghost predicate LastTo(t: Tree, list: seq<Rendered>, n: int, f: FileId) {
    && 0 <= n < |list| && Destination(t, list[n]) == f
    && forall k :: n < k < |list| ==> Destination(t, list[k]) != f
  }

  ghost predicate Leads(t: Tree, list: seq<Rendered>, f: FileId) {
    exists n :: 0 <= n < |list| && Destination(t, list[n]) == f
  }

  lemma {:induction false} WritingKeepsLinks(t: Tree, list: seq<Rendered>)
    ensures Written(t, list).alias == t.alias
  {
    if list != [] {
      WritingKeepsLinks(t, list[..|list| - 1]);
    }
  }

  // After some writes, two names stand for one file exactly when they did before or are the same.
  ghost predicate SameFiles(t: Tree, w: Tree) {
    && w.alias == t.alias
    && (forall q :: q in t.names ==> q in w.names && w.names[q] == t.names[q])
    && forall q, r :: q in w.names && r in w.names ==> (w.names[q] == w.names[r] <==> FileOf(t, q) == FileOf(t, r))
  }

  lemma WriteKeepsSameFiles(t: Tree, w: Tree, r: Place, b: Bytes)
    requires SameFiles(t, w)
    ensures SameFiles(t, WriteAt(w, r, b))
    ensures forall q :: ReadAt(WriteAt(w, r, b), q) == if FileOf(t, q) == FileOf(t, r) then Some(b) else ReadAt(w, q)
  {
    hide Unused;
    if r !in w.names {
      assert forall q :: q in w.names ==> w.names[q] != Unused(w.names.Values, 0);
    }
  }

  lemma {:induction false} WritingKeepsSameFiles(t: Tree, list: seq<Rendered>)
    ensures SameFiles(t, Written(t, list))
  {
    if list != [] {
      var n := |list| - 1;
      WritingKeepsSameFiles(t, list[..n]);
      hide SameFiles, WriteAt;
      WriteKeepsSameFiles(t, Written(t, list[..n]), Resolve(Written(t, list[..n]), list[n].path), list[n].bytes);
    }
  }

  // What is found at q once the list is written.
  function Holds(t: Tree, list: seq<Rendered>, q: Place): Option<Bytes> {
    if list == [] then ReadAt(t, q)
    else
      var n := |list| - 1;
      if Destination(t, list[n]) == FileOf(t, q) then Some(list[n].bytes) else Holds(t, list[..n], q)
  }

  // Names of one file read alike.
  lemma OneFileReadsAlike(t: Tree, w: Tree, q: Place, r: Place)
    requires SameFiles(t, w) && FileOf(t, q) == FileOf(t, r) && ReadAt(w, r).Some?
    ensures ReadAt(w, q) == ReadAt(w, r)
  {
    assert q in w.names;
  }

  lemma {:induction false} HoldsIs(t: Tree, list: seq<Rendered>, q: Place)
    ensures ReadAt(Written(t, list), q) == Holds(t, list, q)
  {
    if list != [] {
      var n := |list| - 1;
      var before, r := Written(t, list[..n]), Resolve(t, list[n].path);
      HoldsIs(t, list[..n], q);
      WritingKeepsSameFiles(t, list[..n]);
      WritingKeepsLinks(t, list[..n]);
      hide SameFiles, WriteAt, FileOf, ReadAt;
      WriteKeepsSameFiles(t, before, r, list[n].bytes);
      if FileOf(t, q) == FileOf(t, r) && ReadAt(before, r) == Some(list[n].bytes) {
        OneFileReadsAlike(t, before, q, r);
      }
    }
  }

  lemma {:induction false} LastToDecides(t: Tree, list: seq<Rendered>, q: Place, last: nat)
    requires LastTo(t, list, last, FileOf(t, q))
    ensures Holds(t, list, q) == Some(list[last].bytes)
  {
    hide Destination, FileOf, ReadAt;
    var n := |list| - 1;
    if last < n {
      LastToDecides(t, list[..n], q, last);
    }
  }

  lemma {:induction false} HasLast(t: Tree, list: seq<Rendered>, q: Place)
    ensures var f := FileOf(t, q);
            (exists n :: LastTo(t, list, n, f)) || (!Leads(t, list, f) && Holds(t, list, q) == ReadAt(t, q))
  {
    hide Destination, FileOf, ReadAt;
    if list != [] {
      var n := |list| - 1;
      HasLast(t, list[..n], q);
      if Destination(t, list[n]) == FileOf(t, q) {
        assert LastTo(t, list, n, FileOf(t, q));
      } else if k :| LastTo(t, list[..n], k, FileOf(t, q)) {
        assert LastTo(t, list, k, FileOf(t, q));
      }
    }
  }

  lemma LastLeads(t: Tree, list: seq<Rendered>, f: FileId, n: nat)
    requires LastTo(t, list, n, f)
    ensures Leads(t, list, f)
  {
  }

  // A place reads as the last entry written to its file, or else as before.
  lemma WrittenHolds(t: Tree, list: seq<Rendered>, q: Place)
    ensures var f := FileOf(t, q);
            && (Leads(t, list, f) ==> exists n :: LastTo(t, list, n, f))
            && (forall n :: LastTo(t, list, n, f) ==> ReadAt(Written(t, list), q) == Some(list[n].bytes))
            && (!Leads(t, list, f) ==> ReadAt(Written(t, list), q) == ReadAt(t, q))
  {
    HoldsIs(t, list, q);
    HasLast(t, list, q);
    hide ReadAt, Holds, Written, Destination, FileOf;
    var f := FileOf(t, q);
    forall n | LastTo(t, list, n, f)
      ensures Holds(t, list, q) == Some(list[n].bytes) && Leads(t, list, f)
    {
      LastToDecides(t, list, q, n);
      LastLeads(t, list, f, n);
    }
  }

  // The real run compares entry n with what the last earlier entry written to the same file left there.
  lemma SeenWhenReached(t: Tree, list: seq<Rendered>, n: nat)
    requires n < |list|
    ensures var f := Destination(t, list[n]);
            && (forall m :: LastTo(t, list[..n], m, f) ==>
                  Read(Written(t, list[..n]), list[n].path) == Some(list[m].bytes))
            && ((forall m :: !LastTo(t, list[..n], m, f)) ==>
                  Read(Written(t, list[..n]), list[n].path) == Read(t, list[n].path))
  {
    WritingKeepsLinks(t, list[..n]);
    WrittenHolds(t, list[..n], Resolve(t, list[n].path));
  }

  ghost predicate DistinctPaths(list: seq<Rendered>) {
    forall i, j :: 0 <= i < j < |list| ==> list[i].path != list[j].path
  }

  // The dry comparison of entry n comes out as the real one.
  ghost predicate SameVerdict(t: Tree, list: seq<Rendered>, n: nat)
    requires n < |list|
  {
    Read(t, list[n].path) == Some(list[n].bytes)
    <==> Read(Written(t, list[..n]), list[n].path) == Some(list[n].bytes)
  }

  lemma {:induction false} ReportsName(t: Tree, list: seq<Rendered>)
    ensures forall p :: p in Changed(t, list) || p in WouldChange(t, list) ==> p in Paths(list)
  {
    if list != [] {
      ReportsName(t, list[..|list| - 1]);
      assert Paths(list) == Paths(list[..|list| - 1]) + {list[|list| - 1].path};
    }
  }

  lemma {:induction false} ReportsAgreeIff(t: Tree, list: seq<Rendered>)
    requires DistinctPaths(list)
    ensures WouldChange(t, list) == Changed(t, list) <==> forall n :: 0 <= n < |list| ==> SameVerdict(t, list, n)
  {
    if list != [] {
      var n := |list| - 1;
      var before := list[..n];
      ReportsAgreeIff(t, before);
      LastReport(t, list);
      forall k | 0 <= k < n
        ensures SameVerdict(t, before, k) <==> SameVerdict(t, list, k)
      {
        assert before[..k] == list[..k];
      }
      hide *;
    }
  }

  lemma LastReport(t: Tree, list: seq<Rendered>)
    requires DistinctPaths(list) && list != []
    ensures var n := |list| - 1;
            WouldChange(t, list) == Changed(t, list)
            <==> WouldChange(t, list[..n]) == Changed(t, list[..n]) && SameVerdict(t, list, n)
  {
    hide Written, Read;
    var n := |list| - 1;
    ReportsName(t, list[..n]);
    ExtendedAlike(WouldChange(t, list[..n]), Changed(t, list[..n]), list[n].path);
  }

  // Appending `p` to lists that lack it keeps them equal or different, and appending it to only one makes them differ.
  lemma ExtendedAlike(a: seq<Rel>, b: seq<Rel>, p: Rel)
    requires p !in a && p !in b
    ensures a + [p] == b + [p] <==> a == b
    ensures a + [p] != b + [] && a + [] != b + [p]
    ensures a + [] == b + [] <==> a == b
  {
    assert (a + [p])[..|a|] == a && (b + [p])[..|b|] == b;
    assert p in a + [p] && p in b + [p];
    assert a + [] == a && b + [] == b;
  }

  lemma {:induction false} RecordedIs(hash: Hash, list: seq<Rendered>)
    ensures Recorded(hash, list).Keys == Paths(list)
  {
    if list != [] {
      var n := |list| - 1;
      RecordedIs(hash, list[..n]);
      assert Paths(list) == Paths(list[..n]) + {list[n].path};
    }
  }

  // A path that `finish` looks at on disk: recorded before, not rendered now, no link on the way.
  predicate Considered(t: Tree, list: seq<Rendered>, previous: map<Rel, Digest>, p: Rel) {
    p in previous && p !in Paths(list) && AllNormal(p) && p !in t.alias
  }

  predicate HasDigest(hash: Hash, b: Option<Bytes>, digest: Digest) {
    b.Some? && hash(b.value) == digest
  }

  lemma RemovableIff(hash: Hash, t: Tree, list: seq<Rendered>, previous: map<Rel, Digest>, p: Rel)
    ensures p in Removed(hash, t, previous, Recorded(hash, list))
       <==> Considered(t, list, previous, p) && HasDigest(hash, ReadAt(t, At(p)), previous[p])
  {
    RecordedIs(hash, list);
  }

  /**
   A file is removed exactly when it was recorded before, is not rendered now, has a plain path without links, and
   holds the recorded bytes once everything is written.
   */
  lemma RemovedIff(hash: Hash, t: Tree, list: seq<Rendered>, previous: map<Rel, Digest>, p: Rel)
    ensures p in Removed(hash, Written(t, list), previous, Recorded(hash, list))
       <==> && p in previous && (forall i :: 0 <= i < |list| ==> list[i].path != p)
            && (forall i :: 0 <= i < |p| ==> p[i].Normal?) && p !in t.alias
            && ReadAt(Written(t, list), At(p)).Some? && hash(ReadAt(Written(t, list), At(p)).value) == previous[p]
  {
    RemovableIff(hash, Written(t, list), list, previous, p);
    WritingKeepsLinks(t, list);
    hide Removed, Written, Recorded;
  }

  // A path occurs in a report once at most, decided by its own comparison.
  lemma {:induction false} ReportedAt(t: Tree, list: seq<Rendered>, i: nat)
    requires DistinctPaths(list) && i < |list|
    ensures list[i].path in WouldChange(t, list) <==> Read(t, list[i].path) != Some(list[i].bytes)
    ensures list[i].path in Changed(t, list)
       <==> Read(Written(t, list[..i]), list[i].path) != Some(list[i].bytes)
  {
    hide Written, Read;
    var n := |list| - 1;
    ReportsName(t, list[..n]);
    if i < n {
      ReportedAt(t, list[..n], i);
      assert list[..n][..i] == list[..i];
    }
  }

  /**
   A dry run reports the paths that do not hold their bytes at the start; the real run reports those that do not hold
   them when their turn comes, after the last earlier entry written to the same file.
   */
  lemma ReportsAre(t: Tree, list: seq<Rendered>, i: nat)
    requires DistinctPaths(list) && i < |list|
    ensures list[i].path in WouldChange(t, list) <==> Read(t, list[i].path) != Some(list[i].bytes)
    ensures forall m :: LastTo(t, list[..i], m, Destination(t, list[i])) ==>
              (list[i].path in Changed(t, list) <==> list[m].bytes != list[i].bytes)
    ensures (forall m :: !LastTo(t, list[..i], m, Destination(t, list[i]))) ==>
              (list[i].path in Changed(t, list) <==> Read(t, list[i].path) != Some(list[i].bytes))
  {
    ReportedAt(t, list, i);
    SeenWhenReached(t, list, i);
    hide Written, Read, LastTo, Destination, Changed, WouldChange;
  }

  /**
   A dry run reports the changes of the real run exactly when, wherever an entry follows another onto the same
   file, its own bytes are there at the start if and only if the other entry has them too. It reports the removals
   exactly when each considered file that entries lead to is unedited at the start if and only if the last of them
   has its recorded digest.
   */
  lemma DryRunPredictsIff(hash: Hash, t: Tree, list: seq<Rendered>, previous: map<Rel, Digest>)
    requires DistinctPaths(list)
    ensures WouldChange(t, list) == Changed(t, list)
       <==> forall m, n :: 0 <= n < |list| && LastTo(t, list[..n], m, Destination(t, list[n])) ==>
              (Read(t, list[n].path) == Some(list[n].bytes) <==> list[m].bytes == list[n].bytes)
    ensures Removed(hash, t, previous, Recorded(hash, list))
            == Removed(hash, Written(t, list), previous, Recorded(hash, list))
       <==> forall p, n :: Considered(t, list, previous, p) && LastTo(t, list, n, FileOf(t, At(p))) ==>
              (HasDigest(hash, ReadAt(t, At(p)), previous[p]) <==> hash(list[n].bytes) == previous[p])
  {
    ReportsAgreeIff(t, list);
    forall n | 0 <= n < |list|
      ensures SameVerdict(t, list, n)
         <==> forall m :: LastTo(t, list[..n], m, Destination(t, list[n])) ==>
                (Read(t, list[n].path) == Some(list[n].bytes) <==> list[m].bytes == list[n].bytes)
    {
      SeenWhenReached(t, list, n);
      hide Destination, Read, LastTo, Written;
    }
    RemovalsAgreeIff(hash, t, list, previous);
  }

  lemma RemovalsAgreeIff(hash: Hash, t: Tree, list: seq<Rendered>, previous: map<Rel, Digest>)
    ensures Removed(hash, t, previous, Recorded(hash, list))
            == Removed(hash, Written(t, list), previous, Recorded(hash, list))
       <==> forall p, n :: Considered(t, list, previous, p) && LastTo(t, list, n, FileOf(t, At(p))) ==>
              (HasDigest(hash, ReadAt(t, At(p)), previous[p]) <==> hash(list[n].bytes) == previous[p])
  {
    var after, current := Written(t, list), Recorded(hash, list);
    WritingKeepsLinks(t, list);
    forall p
      ensures (p in Removed(hash, t, previous, current) <==> p in Removed(hash, after, previous, current))
         <==> forall n :: Considered(t, list, previous, p) && LastTo(t, list, n, FileOf(t, At(p))) ==>
                (HasDigest(hash, ReadAt(t, At(p)), previous[p]) <==> hash(list[n].bytes) == previous[p])
    {
      RemovableIff(hash, t, list, previous, p);
      RemovableIff(hash, after, list, previous, p);
      WrittenHolds(t, list, At(p));
      hide Removed, Written, ReadAt, LastTo, FileOf;
    }
    hide Removed, Written, ReadAt, LastTo, Considered, FileOf;
  }

  const FILE_A: Rel := [Normal("a")]
  const FILE_B: Rel := [Normal("b")]

  lemma FilesDiffer()
    ensures FILE_A != FILE_B
  {
    assert Normal("a") != Normal("b");
    assert FILE_A[0] != FILE_B[0];
  }

  // The path b leads onto the stale file a, by a symbolic or a hard link: writing it edits the stale file.
  lemma LinkDefeatsDryRun(hash: Hash, hard: bool)
    requires hash([1]) != hash([2])
    ensures var t := if hard then Tree(map[At(FILE_A) := 0, At(FILE_B) := 0], map[0 := [1]], map[])
                     else Tree(map[At(FILE_A) := 0], map[0 := [1]], map[FILE_B := At(FILE_A)]);
            var list := [Rendered(FILE_B, [2])];
            var previous := map[FILE_A := hash([1])];
            && FILE_A in Removed(hash, t, previous, Recorded(hash, list))
            && FILE_A !in Removed(hash, Written(t, list), previous, Recorded(hash, list))
  {
    FilesDiffer();
    assert AllNormal(FILE_A);
    hide FILE_A, FILE_B, Unused;
    var t := if hard then Tree(map[At(FILE_A) := 0, At(FILE_B) := 0], map[0 := [1]], map[])
             else Tree(map[At(FILE_A) := 0], map[0 := [1]], map[FILE_B := At(FILE_A)]);
    var b := Rendered(FILE_B, [2]);
    WrittenOne(t, b);
    assert Read(t, FILE_B) == Some([1]);
    assert ReadAt(Write(t, FILE_B, [2]), At(FILE_A)) == Some([2]);
    assert Paths([b]) == {FILE_B} by {
      assert [b][0].path == FILE_B;
    }
    RecordedIs(hash, [b]);
    hide Written;
  }

  // Two rendered paths lead to one file that is not there yet: the second write is predicted and does not happen.
  lemma LinkDefeatsReport()
    ensures var t := Tree(map[], map[], map[FILE_B := At(FILE_A)]);
            var list := [Rendered(FILE_A, [1]), Rendered(FILE_B, [1])];
            WouldChange(t, list) == [FILE_A, FILE_B] && Changed(t, list) == [FILE_A]
  {
    FilesDiffer();
    hide FILE_A, FILE_B, Unused;
    var t := Tree(map[], map[], map[FILE_B := At(FILE_A)]);
    var a, b := Rendered(FILE_A, [1]), Rendered(FILE_B, [1]);
    WrittenOne(t, a);
    assert [a, b][..1] == [a];
    assert Read(t, FILE_A) == None && Read(t, FILE_B) == None;
    assert Read(Write(t, FILE_A, [1]), FILE_B) == Some([1]);
    assert WouldChange(t, [a]) == [FILE_A] by {
      assert [a][..0] == [];
    }
    hide Written, Read;
  }

  // ----- repetition -----

  ghost predicate AllReadBack(t: Tree, list: seq<Rendered>) {
    forall i :: 0 <= i < |list| ==> Read(t, list[i].path) == Some(list[i].bytes)
  }

  // Entries written to one file have equal bytes.
  ghost predicate Agreeing(t: Tree, list: seq<Rendered>) {
    forall i, j :: 0 <= i < j < |list| && Destination(t, list[i]) == Destination(t, list[j]) ==>
      list[i].bytes == list[j].bytes
  }

  ghost predicate Coherent(hash: Hash, t: Tree, list: seq<Rendered>, previous: map<Rel, Digest>) {
    && Agreeing(t, list)
    && forall i, p :: 0 <= i < |list| ==> !Revives(hash, t, list, previous, list[i].path, list[i].bytes, p)
  }

  // A rendered path leads to a stale name, and the bytes there are the ones recorded for it.
  ghost predicate Revives(hash: Hash, t: Tree, list: seq<Rendered>, previous: map<Rel, Digest>,
                          path: Rel, b: Bytes, p: Rel) {
    Considered(t, list, previous, p) && Resolve(t, path) == At(p) && hash(b) == previous[p]
  }

  lemma {:induction false} NothingChangesIff(t: Tree, list: seq<Rendered>)
    ensures Changed(t, list) == [] <==> AllReadBack(t, list)
    ensures Changed(t, list) == [] ==> Written(t, list) == t
  {
    if list != [] {
      var n := |list| - 1;
      NothingChangesIff(t, list[..n]);
      assert AllReadBack(t, list) <==> AllReadBack(t, list[..n]) && Read(t, list[n].path) == Some(list[n].bytes);
    }
  }

  // What an entry's path reads as after the apply.
  lemma ReadAfterApply(hash: Hash, t: Tree, list: seq<Rendered>, previous: map<Rel, Digest>, i: nat, last: nat)
    requires i < |list| && LastTo(t, list, last, Destination(t, list[i]))
    ensures var b := list[last].bytes;
            Read(Applied(hash, t, list, previous), list[i].path)
            == if exists p :: Revives(hash, t, list, previous, list[i].path, b, p) then None else Some(b)
  {
    var q, after, b := Resolve(t, list[i].path), Written(t, list), list[last].bytes;
    WritingKeepsLinks(t, list);
    WrittenHolds(t, list, q);
    assert ReadAt(after, q) == Some(b);
    if q.At? {
      RemovableIff(hash, after, list, previous, q.path);
    }
    var gone := Removed(hash, after, previous, Recorded(hash, list));
    if q.At? && q.path in gone {
      assert Revives(hash, t, list, previous, list[i].path, b, q.path);
    } else if p :| Revives(hash, t, list, previous, list[i].path, b, p) {
      assert false;
    }
    hide Removed, Written, Recorded;
    ReadWithout(after, gone, list[i].path);
  }

  lemma ReadWithout(t: Tree, gone: set<Rel>, p: Rel)
    ensures var q := Resolve(t, p);
            Read(Without(t, gone), p) == if q.At? && q.path in gone then None else ReadAt(t, q)
  {
  }

  /**
   After a completed apply, repeating it changes nothing exactly when all rendered files read back, and that is
   exactly when entries written to one file have equal bytes and none leads to a stale name whose recorded bytes
   it has. Repeating never removes anything.
   */
  lemma RepeatChangesNothingIff(hash: Hash, t: Tree, list: seq<Rendered>, previous: map<Rel, Digest>)
    ensures var t' := Applied(hash, t, list, previous);
            && (Changed(t', list) == [] <==> Coherent(hash, t, list, previous))
            && (Changed(t', list) == [] <==> AllReadBack(t', list))
            && (Changed(t', list) == [] ==> Applied(hash, t', list, Recorded(hash, list)) == t')
            && Removed(hash, Written(t', list), Recorded(hash, list), Recorded(hash, list)) == {}
  {
    var t' := Applied(hash, t, list, previous);
    NothingChangesIff(t', list);
    RepeatRemovesNothing(hash, t', list);
    if AllReadBack(t', list) {
      ReadBackIsCoherent(hash, t, list, previous);
    } else if Coherent(hash, t, list, previous) {
      CoherentReadsBack(hash, t, list, previous);
    }
  }

  lemma RepeatRemovesNothing(hash: Hash, t: Tree, list: seq<Rendered>)
    ensures Removed(hash, Written(t, list), Recorded(hash, list), Recorded(hash, list)) == {}
    ensures Applied(hash, t, list, Recorded(hash, list)) == Written(t, list)
  {
    assert Without(Written(t, list), {}) == Written(t, list);
  }

  lemma CoherentReadsBack(hash: Hash, t: Tree, list: seq<Rendered>, previous: map<Rel, Digest>)
    requires Coherent(hash, t, list, previous)
    ensures AllReadBack(Applied(hash, t, list, previous), list)
  {
    forall i | 0 <= i < |list|
      ensures Read(Applied(hash, t, list, previous), list[i].path) == Some(list[i].bytes)
    {
      var q := Resolve(t, list[i].path);
      WrittenHolds(t, list, q);
      assert Leads(t, list, FileOf(t, q));
      var n :| LastTo(t, list, n, FileOf(t, q));
      assert list[n].bytes == list[i].bytes;
      hide Applied, Read, Destination, Written, FileOf;
      ReadAfterApply(hash, t, list, previous, i, n);
    }
  }

  lemma ReadBackIsCoherent(hash: Hash, t: Tree, list: seq<Rendered>, previous: map<Rel, Digest>)
    requires AllReadBack(Applied(hash, t, list, previous), list)
    ensures Coherent(hash, t, list, previous)
  {
    forall i | 0 <= i < |list|
      ensures forall n :: LastTo(t, list, n, Destination(t, list[i])) ==> list[n].bytes == list[i].bytes
      ensures exists n :: LastTo(t, list, n, Destination(t, list[i]))
      ensures forall p :: !Revives(hash, t, list, previous, list[i].path, list[i].bytes, p)
    {
      WrittenHolds(t, list, Resolve(t, list[i].path));
      assert Leads(t, list, Destination(t, list[i]));
      forall n | LastTo(t, list, n, Destination(t, list[i]))
        ensures list[n].bytes == list[i].bytes
        ensures forall p :: !Revives(hash, t, list, previous, list[i].path, list[i].bytes, p)
      {
        hide Applied, Read, Destination, Written, FileOf, Revives;
        ReadAfterApply(hash, t, list, previous, i, n);
      }
    }
    hide Applied, Read, Destination, Written, FileOf, Revives;
    forall i, j | 0 <= i < j < |list| && Destination(t, list[i]) == Destination(t, list[j])
      ensures list[i].bytes == list[j].bytes
    {
      var n :| LastTo(t, list, n, Destination(t, list[i]));
    }
  }

  // What a list of two entries writes and reports, when both lead to the place of the first.
  lemma WrittenTwice(t: Tree, a: Rendered, b: Rendered)
    requires Resolve(t, a.path) == Resolve(t, b.path) && a.bytes != b.bytes
    ensures Written(t, [a, b]) == Write(t, b.path, b.bytes)
    ensures Changed(t, [a, b]) == (if Read(t, a.path) == Some(a.bytes) then [] else [a.path]) + [b.path]
  {
    WrittenOne(t, a);
    assert [a, b][..1] == [a];
    var q, one := Resolve(t, a.path), Written(t, [a]);
    WriteOver(t, q, a.bytes, b.bytes);
    assert ReadAt(one, q) == Some(a.bytes);
    hide ReadAt, WriteAt;
  }

  lemma WriteOver(t: Tree, q: Place, a: Bytes, b: Bytes)
    ensures ReadAt(WriteAt(t, q, a), q) == Some(a)
    ensures WriteAt(WriteAt(t, q, a), q, b) == WriteAt(t, q, b)
  {
    hide Unused;
  }

  lemma WrittenOne(t: Tree, a: Rendered)
    ensures Written(t, [a]) == if Read(t, a.path) == Some(a.bytes) then t else Write(t, a.path, a.bytes)
    ensures Changed(t, [a]) == if Read(t, a.path) == Some(a.bytes) then [] else [a.path]
  {
    assert [a][..0] == [];
  }

  // Two rendered paths lead to one file: every apply rewrites it twice.
  lemma CollidingFilesNeverSettle(hash: Hash)
    ensures var t := Tree(map[], map[], map[FILE_B := At(FILE_A)]);
            var list := [Rendered(FILE_A, [1]), Rendered(FILE_B, [2])];
            var t' := Applied(hash, t, list, map[]);
            Changed(t', list) == [FILE_A, FILE_B] && Applied(hash, t', list, Recorded(hash, list)) == t'
  {
    FilesDiffer();
    hide FILE_A, FILE_B, Unused;
    var t := Tree(map[], map[], map[FILE_B := At(FILE_A)]);
    var a, b := Rendered(FILE_A, [1]), Rendered(FILE_B, [2]);
    var t' := Applied(hash, t, [a, b], map[]);
    WrittenTwice(t, a, b);
    WrittenTwice(t', a, b);
    hide Written, Changed;
    assert Removed(hash, Written(t, [a, b]), map[], Recorded(hash, [a, b])) == {};
    var i := Unused(t.names.Values, 0);
    assert t'.names == map[At(FILE_A) := i] && t'.files == map[i := [2]];
    assert Write(t', FILE_B, [2]).files == t'.files && Write(t', FILE_B, [2]).names == t'.names;
    RepeatRemovesNothing(hash, t', [a, b]);
  }

  // The link b leads to the stale file a, which is removed right after b was written.
  lemma ApplyDeletesWhatItRendered(hash: Hash)
    ensures var t := Tree(map[], map[], map[FILE_B := At(FILE_A)]);
            Read(Applied(hash, t, [Rendered(FILE_B, [1])], map[FILE_A := hash([1])]), FILE_B) == None
  {
    FilesDiffer();
    var t := Tree(map[], map[], map[FILE_B := At(FILE_A)]);
    var list, previous := [Rendered(FILE_B, [1])], map[FILE_A := hash([1])];
    assert list[0].path == FILE_B;
    assert LastTo(t, list, 0, Destination(t, list[0]));
    assert Revives(hash, t, list, previous, FILE_B, [1], FILE_A);
    ReadAfterApply(hash, t, list, previous, 0, 0);
  }

  // ----- whole histories -----

  // Applies that complete, that fail after some writes, or while removing; dry runs; and the user, who edits files
  // in place or by replacing them, deletes them, makes hard links, changes symbolic links, and may lose or damage
  // the manifest.
  datatype Event =
    | Apply(list: seq<Rendered>)
    | FailWriting(list: seq<Rendered>, done: nat)
    | FailRemoving(list: seq<Rendered>, gone: set<Rel>)
    | DryRun(list: seq<Rendered>)
    | Edit(place: Place, bytes: Bytes)
    | Replace(place: Place, bytes: Bytes)
    | Unlink(place: Place)
    | HardLink(from: Place, to: Place)
    | Relink(alias: map<Rel, Place>)
    | Damage(now: Manifest)

  // The tree, the manifest, and what the last completed apply rendered.
  datatype Home = Home(tree: Tree, manifest: Manifest, last: map<Rel, Bytes>)

  function LastRendered(list: seq<Rendered>): map<Rel, Bytes> {
    if list == [] then map[] else LastRendered(list[..|list| - 1])[list[|list| - 1].path := list[|list| - 1].bytes]
  }

  function Happen(hash: Hash, h: Home, e: Event): Home {
    match e
    case Apply(list) =>
      if h.manifest.Corrupt? then h.(tree := Written(h.tree, list))
      else Home(Applied(hash, h.tree, list, Previous(h.manifest)), Saved(Recorded(hash, list)), LastRendered(list))
    case FailWriting(list, done) => h.(tree := Written(h.tree, if done <= |list| then list[..done] else list))
    case FailRemoving(list, gone) =>
      var t, current := Written(h.tree, list), Recorded(hash, list);
      if h.manifest.Corrupt? then h.(tree := t)
      else h.(tree := Without(t, gone * Removed(hash, t, Previous(h.manifest), current)))
    case DryRun(_) => h
    case Edit(q, b) => h.(tree := WriteAt(h.tree, q, b))
    case Replace(q, b) => h.(tree := WriteAt(h.tree.(names := h.tree.names - {q}), q, b))
    case Unlink(q) => h.(tree := h.tree.(names := h.tree.names - {q}))
    case HardLink(from, to) =>
      if from in h.tree.names && to !in h.tree.names
      then h.(tree := h.tree.(names := h.tree.names[to := h.tree.names[from]])) else h
    case Relink(alias) => h.(tree := h.tree.(alias := alias))
    case Damage(now) => if now.Saved? then h else h.(manifest := now)
  }

  function History(hash: Hash, start: Tree, events: seq<Event>): Home
    decreases events
  {
    if events == [] then Home(start, Missing, map[])
    else Happen(hash, History(hash, start, events[..|events| - 1]), events[|events| - 1])
  }

  // The manifest records the digests of what the last completed apply rendered.
  ghost predicate ManifestIsLast(hash: Hash, h: Home) {
    h.manifest.Saved? ==>
      h.manifest.digests.Keys == h.last.Keys && forall p :: p in h.last ==> h.manifest.digests[p] == hash(h.last[p])
  }

  lemma {:induction false} RecordedIsLast(hash: Hash, list: seq<Rendered>)
    ensures Recorded(hash, list).Keys == LastRendered(list).Keys == Paths(list)
    ensures forall p :: p in LastRendered(list) ==> Recorded(hash, list)[p] == hash(LastRendered(list)[p])
  {
    RecordedIs(hash, list);
    if list != [] {
      RecordedIsLast(hash, list[..|list| - 1]);
      assert Paths(list) == Paths(list[..|list| - 1]) + {list[|list| - 1].path};
    }
  }

  lemma {:induction false} ManifestFollowsApplies(hash: Hash, start: Tree, events: seq<Event>)
    ensures ManifestIsLast(hash, History(hash, start, events))
    decreases events
  {
    if events != [] {
      ManifestFollowsApplies(hash, start, events[..|events| - 1]);
      var e := events[|events| - 1];
      if e.Apply? {
        RecordedIsLast(hash, e.list);
      }
    }
  }

  ghost function ListOf(e: Event): seq<Rendered> {
    if e.Apply? || e.FailWriting? || e.FailRemoving? then e.list else []
  }

  lemma {:induction false} WritingKeepsFiles(t: Tree, list: seq<Rendered>, q: Place)
    requires q in t.names
    ensures q in Written(t, list).names
  {
    if list != [] {
      WritingKeepsFiles(t, list[..|list| - 1], q);
    }
  }

  /**
   In every history, a file that an apply deletes was rendered by the last completed apply, is rendered no longer,
   and (with a collision-free digest) holds exactly the bytes rendered then.
   */
  lemma DeletionIsJustified(hash: Hash, start: Tree, events: seq<Event>, e: Event, q: Place)
    requires forall x, y :: hash(x) == hash(y) ==> x == y
    requires var h := History(hash, start, events);
             q in h.tree.names && !e.Unlink? && q !in Happen(hash, h, e).tree.names
    ensures var h := History(hash, start, events);
            && (e.Apply? || e.FailRemoving?)
            && q.At? && q.path in h.last && q.path !in Paths(e.list) && q.path !in h.tree.alias
            && (forall i :: 0 <= i < |q.path| ==> q.path[i].Normal?)
            && ReadAt(Written(h.tree, e.list), q) == Some(h.last[q.path])
  {
    var h := History(hash, start, events);
    ManifestFollowsApplies(hash, start, events);
    var list := ListOf(e);
    WritingKeepsFiles(h.tree, list, q);
    if e.FailWriting? {
      WritingKeepsFiles(h.tree, if e.done <= |list| then list[..e.done] else list, q);
    }
    RecordedIsLast(hash, list);
    WritingKeepsLinks(h.tree, list);
  }

  /**
   A file whose path the last completed apply did not render is never deleted by any later apply, until some apply
   renders that path again: so a stale file that was skipped stays.
   */
  lemma {:induction false} SkippedFileStays(hash: Hash, start: Tree, events: seq<Event>, later: seq<Event>, p: Rel)
    requires p !in History(hash, start, events).last
    requires At(p) in History(hash, start, events).tree.names
    requires forall i :: 0 <= i < |later| ==> p !in Paths(ListOf(later[i])) && later[i] != Unlink(At(p))
    ensures p !in History(hash, start, events + later).last
    ensures At(p) in History(hash, start, events + later).tree.names
    decreases later
  {
    hide History, Happen;
    if later == [] {
      assert events + later == events;
    } else {
      var n := |later| - 1;
      SkippedFileStays(hash, start, events, later[..n], p);
      HistoryStep(hash, start, events, later);
      ManifestFollowsApplies(hash, start, events + later[..n]);
      EventKeepsSkipped(hash, History(hash, start, events + later[..n]), later[n], p);
    }
  }

  lemma HistoryStep(hash: Hash, start: Tree, events: seq<Event>, later: seq<Event>)
    requires later != []
    ensures var n := |later| - 1;
            History(hash, start, events + later) == Happen(hash, History(hash, start, events + later[..n]), later[n])
  {
    hide Happen;
    InitOfConcat(events, later);
  }

  lemma EventKeepsSkipped(hash: Hash, h: Home, e: Event, p: Rel)
    requires ManifestIsLast(hash, h) && p !in h.last && At(p) in h.tree.names
    requires p !in Paths(ListOf(e)) && e != Unlink(At(p))
    ensures p !in Happen(hash, h, e).last && At(p) in Happen(hash, h, e).tree.names
  {
    RecordedIsLast(hash, ListOf(e));
    WritingKeepsFiles(h.tree, ListOf(e), At(p));
    if e.FailWriting? {
      WritingKeepsFiles(h.tree, if e.done <= |e.list| then e.list[..e.done] else e.list, At(p));
    }
  }
}
