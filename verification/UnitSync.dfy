/**
 `sy apply` for systemd units: classify each source file against its link in the target
 directory, remove links to vanished sources, and place the links.
 */
module UnitSync {
  import opened Basics
  import opened FileTree

  // Source and target directory as given, and consent to overwrite.
  datatype Opts = Opts(src: Path, dst: Path, yes: bool)

  datatype Kind = Skip | Created | Updated | Unchanged | NeedsConfirm

  const GITKEEP := ".gitkeep"

  // Where the source directory really is; callers know that it exists.
  function Src(t: Tree, o: Opts): Real {
    var d := DirectoryAt(t, o.src);
    if d.Some? then d.value else []
  }

  function Dst(t: Tree, o: Opts): Real {
    var d := DirectoryAt(t, o.dst);
    if d.Some? then d.value else []
  }

  // How the source entry `n` is classified.
  function Classify(t: Tree, o: Opts, n: Name): Kind {
    if Entry(t, o.src, n) != Some(File) || n == GITKEEP then Skip
    else
      match Entry(t, o.dst, n)
      case None => Created
      case Some(Link(to)) =>
        var resolved := Canonical(t, Join(o.dst, to));
        if (if resolved.Some? then RealPath(resolved.value) else Join(o.dst, to)) == RealPath(Src(t, o) + [n])
        then Unchanged else Updated
      case Some(_) => NeedsConfirm
  }

  // A link of the target that names an entry of the source directory, by the spelling given.
  predicate IntoSource(o: Opts, to: Path) {
    var p := Join(o.dst, to);
    p.parts != [] && p.(parts := p.parts[..|p.parts| - 1]) == o.src
  }

  // A link in the target into the source directory, under a name the source no longer has.
  predicate Stale(t: Tree, o: Opts, n: Name) {
    var e := Entry(t, o.dst, n);
    e.Some? && e.value.Link? && !Exists(t, Child(o.src, n)) && IntoSource(o, e.value.to)
  }

  function Select(t: Tree, o: Opts, names: seq<Name>, kind: Kind): seq<Name> {
    if names == [] then []
    else
      var n := names[|names| - 1];
      Select(t, o, names[..|names| - 1], kind) + if Classify(t, o, n) == kind then [n] else []
  }

  function SelectStale(t: Tree, o: Opts, names: seq<Name>): seq<Name> {
    if names == [] then []
    else
      var n := names[|names| - 1];
      SelectStale(t, o, names[..|names| - 1]) + if Stale(t, o, n) then [n] else []
  }

  datatype UnitDiff = UnitDiff(created: seq<Name>, updated: seq<Name>, upToDate: seq<Name>,
                               removed: seq<Name>, needsConfirm: seq<Name>)

  const NO_DIFF := UnitDiff([], [], [], [], [])

  // The diff for a source and a target directory listed in some order.
  function Plan(t: Tree, o: Opts, sources: seq<Name>, targets: seq<Name>): UnitDiff {
    UnitDiff(Select(t, o, sources, Created), Select(t, o, sources, Updated), Select(t, o, sources, Unchanged),
             SelectStale(t, o, targets), Select(t, o, sources, NeedsConfirm))
  }

  // Remove an entry of the target directory; fails on a directory or when there is none.
  function Unlink(t: Tree, o: Opts, n: Name): (Tree, bool) {
    var e := Entry(t, o.dst, n);
    if e.None? || e.value.Directory? then (t, false) else (Drop(t, Dst(t, o) + [n]), true)
  }

  // Replace whatever is at the target by a link to the canonical source.
  function Place(t: Tree, o: Opts, n: Name): (Tree, bool) {
    var source := Canonical(t, Child(o.src, n));
    var (free, ok) := if Entry(t, o.dst, n).Some? then Unlink(t, o, n) else (t, true);
    if source.None? then (t, false)
    else if !ok || DirectoryAt(free, o.dst).None? || Entry(free, o.dst, n).Some? then (free, false)
    else (Put(free, Dst(free, o) + [n], Link(RealPath(source.value))), true)
  }

  // Place links in order; stops at the first failure.
  function PlaceAll(t: Tree, o: Opts, names: seq<Name>): (Tree, bool)
    decreases names
  {
    if names == [] then (t, true)
    else
      var (next, ok) := Place(t, o, names[0]);
      if ok then PlaceAll(next, o, names[1..]) else (next, false)
  }

  function UnlinkAll(t: Tree, o: Opts, names: seq<Name>): (Tree, bool)
    decreases names
  {
    if names == [] then (t, true)
    else
      var (next, ok) := Unlink(t, o, names[0]);
      if ok then UnlinkAll(next, o, names[1..]) else (next, false)
  }

  // The diff applied once the target directory is there.
  function Carry(t: Tree, o: Opts, d: UnitDiff): (Tree, bool) {
    var (placed, ok) := PlaceAll(t, o, d.created + d.updated);
    if !ok then (placed, false)
    else
      var (cleaned, ok) := UnlinkAll(placed, o, d.removed);
      if ok && o.yes then PlaceAll(cleaned, o, d.needsConfirm) else (cleaned, ok)
  }

  function ApplyDiff(t: Tree, o: Opts, d: UnitDiff): (Tree, bool) {
    var (made, ok) := MakeDirs(t, o.dst);
    if ok then Carry(made, o, d) else (made, false)
  }

  /** The file tree the sync works on. */
  class Syncer {
    var tree: Tree

    constructor (t: Tree)
      ensures tree == t
    {
      tree := t;
    }

    /** Classify every source entry and find the stale links; the loops append to the buckets. */
    method MakePlan(o: Opts, sources: seq<Name>, targets: seq<Name>) returns (d: UnitDiff)
      ensures d == Plan(tree, o, sources, targets)
    {
      hide Classify, Stale;
      var created, updated, upToDate, needsConfirm, removed: seq<Name> := [], [], [], [], [];
      for i := 0 to |sources|
        invariant created == Select(tree, o, sources[..i], Created)
        invariant updated == Select(tree, o, sources[..i], Updated)
        invariant upToDate == Select(tree, o, sources[..i], Unchanged)
        invariant needsConfirm == Select(tree, o, sources[..i], NeedsConfirm)
      {
        assert sources[..i + 1][..i] == sources[..i];
        match Classify(tree, o, sources[i]) {
          case Skip =>
          case Created => created := created + [sources[i]];
          case Updated => updated := updated + [sources[i]];
          case Unchanged => upToDate := upToDate + [sources[i]];
          case NeedsConfirm => needsConfirm := needsConfirm + [sources[i]];
        }
      }
      assert sources[..|sources|] == sources;
      for i := 0 to |targets|
        invariant removed == SelectStale(tree, o, targets[..i])
      {
        assert targets[..i + 1][..i] == targets[..i];
        if Stale(tree, o, targets[i]) {
          removed := removed + [targets[i]];
        }
      }
      assert targets[..|targets|] == targets;
      d := UnitDiff(created, updated, upToDate, removed, needsConfirm);
    }

    method PlaceLinks(o: Opts, names: seq<Name>) returns (ok: bool)
      modifies this
      ensures (tree, ok) == PlaceAll(old(tree), o, names)
    {
      hide Place;
      ghost var start := tree;
      for i := 0 to |names|
        invariant PlaceAll(start, o, names) == PlaceAll(tree, o, names[i..])
      {
        assert names[i..][1..] == names[i + 1..];
        var (next, placed) := Place(tree, o, names[i]);
        tree := next;
        if !placed {
          return false;
        }
      }
      return true;
    }

    method RemoveLinks(o: Opts, names: seq<Name>) returns (ok: bool)
      modifies this
      ensures (tree, ok) == UnlinkAll(old(tree), o, names)
    {
      hide Unlink;
      ghost var start := tree;
      for i := 0 to |names|
        invariant UnlinkAll(start, o, names) == UnlinkAll(tree, o, names[i..])
      {
        assert names[i..][1..] == names[i + 1..];
        var (next, removed) := Unlink(tree, o, names[i]);
        tree := next;
        if !removed {
          return false;
        }
      }
      return true;
    }

    /** Plan, and unless this is a dry run, apply the plan; fails without a source directory. */
    method SyncUnits(o: Opts, dry: bool, sources: seq<Name>, targets: seq<Name>) returns (d: UnitDiff, ok: bool)
      modifies this
      ensures DirectoryAt(old(tree), o.src).None? ==> !ok && d == NO_DIFF && tree == old(tree)
      ensures DirectoryAt(old(tree), o.src).Some? ==>
                && d == Plan(old(tree), o, sources, targets)
                && (tree, ok) == if dry then (old(tree), true) else ApplyDiff(old(tree), o, d)
    {
      hide Plan, PlaceAll, UnlinkAll;
      if DirectoryAt(tree, o.src).None? {
        return NO_DIFF, false;
      }
      d := MakePlan(o, sources, targets);
      if dry {
        return d, true;
      }
      var (made, possible) := MakeDirs(tree, o.dst);
      tree := made;
      if !possible {
        return d, false;
      }
      ok := PlaceLinks(o, d.created + d.updated);
      if !ok {
        return;
      }
      ok := RemoveLinks(o, d.removed);
      if ok && o.yes {
        ok := PlaceLinks(o, d.needsConfirm);
      }
    }
  }

  // ----- plans -----

  ghost predicate Distinct(names: seq<Name>) {
    forall i, j :: 0 <= i < j < |names| ==> names[i] != names[j]
  }

  // Every entry of a directory, once.
  ghost predicate Lists(t: Tree, dir: Path, names: seq<Name>) {
    Distinct(names) && forall n :: n in names <==> Entry(t, dir, n).Some?
  }

  lemma {:induction false} SelectIs(t: Tree, o: Opts, names: seq<Name>, kind: Kind)
    ensures forall n :: n in Select(t, o, names, kind) <==> n in names && Classify(t, o, n) == kind
    ensures Distinct(names) ==> Distinct(Select(t, o, names, kind))
  {
    hide Classify;
    if names != [] {
      var before, n := names[..|names| - 1], names[|names| - 1];
      SelectIs(t, o, before, kind);
      assert names == before + [n];
    }
  }

  lemma {:induction false} SelectStaleIs(t: Tree, o: Opts, names: seq<Name>)
    ensures forall n :: n in SelectStale(t, o, names) <==> n in names && Stale(t, o, n)
    ensures Distinct(names) ==> Distinct(SelectStale(t, o, names))
  {
    hide Stale;
    if names != [] {
      var before, n := names[..|names| - 1], names[|names| - 1];
      SelectStaleIs(t, o, before);
      assert names == before + [n];
    }
  }

  /** Buckets are in listing order: the bucket of a listing is that of its first part, then that of the rest. */
  lemma {:induction false} SelectConcat(t: Tree, o: Opts, a: seq<Name>, b: seq<Name>, kind: Kind)
    ensures Select(t, o, a + b, kind) == Select(t, o, a, kind) + Select(t, o, b, kind)
    ensures SelectStale(t, o, a + b) == SelectStale(t, o, a) + SelectStale(t, o, b)
  {
    hide Classify, Stale;
    if b == [] {
      assert a + b == a;
    } else {
      InitOfConcat(a, b);
      SelectConcat(t, o, a, b[..|b| - 1], kind);
    }
  }

  // The buckets hold exactly the listed names of their class: they partition the source files.
  lemma PlanMembers(t: Tree, o: Opts, sources: seq<Name>, targets: seq<Name>)
    ensures var d := Plan(t, o, sources, targets);
            && (forall n :: n in d.created <==> n in sources && Classify(t, o, n) == Created)
            && (forall n :: n in d.updated <==> n in sources && Classify(t, o, n) == Updated)
            && (forall n :: n in d.upToDate <==> n in sources && Classify(t, o, n) == Unchanged)
            && (forall n :: n in d.needsConfirm <==> n in sources && Classify(t, o, n) == NeedsConfirm)
            && (forall n :: n in d.removed <==> n in targets && Stale(t, o, n))
  {
    SelectIs(t, o, sources, Created);
    SelectIs(t, o, sources, Updated);
    SelectIs(t, o, sources, Unchanged);
    SelectIs(t, o, sources, NeedsConfirm);
    SelectStaleIs(t, o, targets);
  }

  ghost predicate IsSource(t: Tree, o: Opts, n: Name) {
    Entry(t, o.src, n) == Some(File)
  }

  // A regular file of the source directory other than the placeholder.
  ghost predicate IsUnit(t: Tree, o: Opts, n: Name) {
    Entry(t, o.src, n) == Some(File) && n != ".gitkeep"
  }

  // What the target link `n` leads to, read and joined to the target directory's path.
  ghost function LeadsFrom(t: Tree, o: Opts, n: Name): Option<Real> {
    match Entry(t, o.dst, n)
    case Some(Link(to)) => Canonical(t, Join(o.dst, to))
    case _ => None
  }

  /**
   The buckets hold exactly the listed units by what the target has under their name: nothing, a link to something
   else, a link to that unit, or a file or directory. The removed names are the listed links into the source directory
   under a name that leads nowhere there.
   */
  lemma BucketsAre(t: Tree, o: Opts, sources: seq<Name>, targets: seq<Name>, n: Name)
    requires WellFormed(t)
    ensures var d, e, unit := Plan(t, o, sources, targets), Entry(t, o.dst, n), n in sources && IsUnit(t, o, n);
            var linked := unit && e.Some? && e.value.Link?;
            && (n in d.created <==> unit && e == None)
            && (n in d.updated <==> linked && LeadsFrom(t, o, n) != Canonical(t, Child(o.src, n)))
            && (n in d.upToDate <==> linked && LeadsFrom(t, o, n) == Canonical(t, Child(o.src, n)))
            && (n in d.needsConfirm <==> unit && (e == Some(File) || e == Some(Directory)))
            && (n in d.removed <==> n in targets && Canonical(t, Child(o.src, n)) == None
                                    && e.Some? && e.value.Link? && Join(o.dst, e.value.to).parts != []
                                    && var to := Join(o.dst, e.value.to);
                                       to.(parts := to.parts[..|to.parts| - 1]) == o.src)
  {
    hide Canonical, RealPath, Join, DirectoryAt, WellFormed;
    PlanMembers(t, o, sources, targets);
    hide Plan;
    if IsUnit(t, o, n) {
      CanonicalChild(t, o.src, n);
      ClassIs(t, o, n);
      hide Classify;
    }
  }

  // A real path to a source file resolves to it.
  lemma SourcePath(t: Tree, dst: Path, p: Real)
    requires WellFormed(t) && At(t, p) == Some(File)
    ensures Canonical(t, RealPath(p)) == Some(p) && Join(dst, RealPath(p)) == RealPath(p)
  {
    RealFile(t, p, [], MAX_LINKS);
    assert Names(p) + [] == Names(p);
  }

  // A link with this content counts as the link of the source file `p`.
  predicate LeadsTo(t: Tree, spelled: Path, p: Real) {
    var r := Canonical(t, spelled);
    (if r.Some? then RealPath(r.value) else spelled) == RealPath(p)
  }

  lemma LeadsToIff(t: Tree, spelled: Path, dir: Real, n: Name)
    requires WellFormed(t) && At(t, dir + [n]) == Some(File)
    ensures LeadsTo(t, spelled, dir + [n]) <==> Canonical(t, spelled) == Some(dir + [n])
  {
    SourcePath(t, spelled, dir + [n]);
    var r := Canonical(t, spelled);
    if r.Some? && RealPath(r.value) == RealPath(dir + [n]) {
      NamesAreInjective(r.value, dir + [n]);
    }
  }

  lemma NamesAreInjective(p: Real, q: Real)
    requires Names(p) == Names(q)
    ensures p == q
  {
    forall i | 0 <= i < |p|
      ensures p[i] == q[i]
    {
      assert Names(p)[i] == Names(q)[i];
    }
  }

  // How a source file is classified, by what its target link resolves to.
  lemma ClassIs(t: Tree, o: Opts, n: Name)
    requires WellFormed(t) && DirectoryAt(t, o.src).Some? && IsSource(t, o, n) && n != GITKEEP
    ensures var e := Entry(t, o.dst, n);
            Classify(t, o, n)
            == if e.None? then Created
               else if !e.value.Link? then NeedsConfirm
               else if Canonical(t, Join(o.dst, e.value.to)) == Some(Src(t, o) + [n]) then Unchanged else Updated
  {
    hide Canonical, Names, WellFormed, Join;
    var e := Entry(t, o.dst, n);
    if e.Some? && e.value.Link? {
      LeadsToIff(t, Join(o.dst, e.value.to), Src(t, o), n);
    }
  }


  // Written names are source files, replaced without consent only where there is nothing or a link; removed names
  // are links and no source files.
  ghost predicate Sound(t: Tree, o: Opts, d: UnitDiff) {
    && (forall n :: n in d.created || n in d.updated || n in d.needsConfirm ==> IsSource(t, o, n))
    && (forall n :: n in d.created || n in d.updated ==>
          Entry(t, o.dst, n) != Some(Directory) && Entry(t, o.dst, n) != Some(File))
    && (forall n :: n in d.removed ==>
          !IsSource(t, o, n) && Entry(t, o.dst, n).Some? && Entry(t, o.dst, n).value.Link?)
    && (forall n :: n in d.needsConfirm ==> n !in d.created && n !in d.updated)
    && Distinct(d.removed) && Distinct(d.needsConfirm)
  }

  lemma PlanIsSound(t: Tree, o: Opts, sources: seq<Name>, targets: seq<Name>)
    requires WellFormed(t) && Distinct(sources) && Distinct(targets)
    ensures Sound(t, o, Plan(t, o, sources, targets))
  {
    PlanMembers(t, o, sources, targets);
    SelectIs(t, o, sources, NeedsConfirm);
    SelectStaleIs(t, o, targets);
    hide Select, SelectStale, Entry, Stale, Classify, IsSource;
    forall n
      ensures Classify(t, o, n) == Created || Classify(t, o, n) == Updated || Classify(t, o, n) == NeedsConfirm ==>
                IsSource(t, o, n)
      ensures Classify(t, o, n) == Created || Classify(t, o, n) == Updated ==>
                Entry(t, o.dst, n) != Some(Directory) && Entry(t, o.dst, n) != Some(File)
      ensures Stale(t, o, n) ==> !IsSource(t, o, n) && Entry(t, o.dst, n).Some? && Entry(t, o.dst, n).value.Link?
    {
      ClassesAre(t, o, n);
    }
  }

  lemma ClassesAre(t: Tree, o: Opts, n: Name)
    requires WellFormed(t)
    ensures var k := Classify(t, o, n);
            && (k == Created || k == Updated || k == NeedsConfirm ==> IsSource(t, o, n))
            && (k == Created || k == Updated ==>
                  Entry(t, o.dst, n) != Some(Directory) && Entry(t, o.dst, n) != Some(File))
    ensures Stale(t, o, n) ==> !IsSource(t, o, n) && Entry(t, o.dst, n).Some? && Entry(t, o.dst, n).value.Link?
  {
    hide Canonical, DirectoryAt, RealPath, Join, Entry, IntoSource, Child;
    CanonicalChild(t, o.src, n);
  }

  lemma Empty(names: seq<Name>)
    ensures names == [] <==> forall n :: n !in names
  {
    if names != [] {
      assert names[0] in names;
    }
  }

  // ----- what a run relies on, and keeps -----

  function LinksIn(t: Tree, dir: Real): set<Real> {
    set p | p in t.nodes && p != [] && Parent(p) == dir && t.nodes[p].Link?
  }

  // The path follows no link of the target directory.
  ghost predicate ClearOf(t: Tree, o: Opts, p: Path) {
    FirstOn(t, LinksIn(t, Dst(t, o)), p).None?
  }

  // Both directories exist, and the run replaces no link that their paths follow.
  ghost predicate Ready(t: Tree, o: Opts) {
    && WellFormed(t) && DirectoryAt(t, o.src).Some? && DirectoryAt(t, o.dst).Some?
    && ClearOf(t, o, o.src) && ClearOf(t, o, o.dst)
  }

  // The setting: as above, or there is no target directory yet and its path has no `..`.
  ghost predicate Settled(t: Tree, o: Opts) {
    Ready(t, o) || (WellFormed(t) && DirectoryAt(t, o.src).Some? && DirectoryAt(t, o.dst).None? && NoUp(o.dst))
  }

  predicate InDir(p: Real, dir: Real) {
    p != [] && Parent(p) == dir
  }

  lemma InDirIff(p: Real, dir: Real, n: Name)
    ensures InDir(p, dir) && Last(p) == n <==> p == dir + [n]
  {
  }

  // `x` differs from `m` only in entries of `dir` that are directories in neither.
  ghost predicate Steady(m: Tree, dir: Real, x: Tree) {
    && x.cwd == m.cwd
    && forall p :: At(x, p) == At(m, p) || (InDir(p, dir) && At(m, p) != Some(Directory) && At(x, p) != Some(Directory))
  }

  lemma SteadyPath(m: Tree, o: Opts, x: Tree, p: Path)
    requires WellFormed(m) && Steady(m, Dst(m, o), x) && ClearOf(m, o, p) && DirectoryAt(m, p).Some?
    ensures DirectoryAt(x, p) == DirectoryAt(m, p)
  {
    hide Walk, FirstMet;
    var changed := set q | q in m.nodes.Keys + x.nodes.Keys && At(x, q) != At(m, q);
    OnlyLinksMatter(m, changed, LinksIn(m, Dst(m, o)), Base(m.cwd, p), p.parts, MAX_LINKS);
    assert SameOutside(m, x, changed);
    WalkFromFirst(m, x, changed, Base(m.cwd, p), p.parts, MAX_LINKS);
  }

  // Between its steps a run finds both directories where they were.
  lemma SteadyPaths(m: Tree, o: Opts, x: Tree)
    requires Ready(m, o) && Steady(m, Dst(m, o), x)
    ensures WellFormed(x)
    ensures DirectoryAt(x, o.src) == DirectoryAt(m, o.src) && DirectoryAt(x, o.dst) == DirectoryAt(m, o.dst)
  {
    SteadyPath(m, o, x, o.src);
    SteadyPath(m, o, x, o.dst);
    hide ClearOf, Canonical;
    forall p | p in x.nodes
      ensures p != [] && IsDirectory(x, Parent(p))
    {
      if At(x, p) == At(m, p) {
        assert p in m.nodes && IsDirectory(m, Parent(p));
      } else {
        assert IsDirectory(m, Dst(m, o));
      }
    }
  }

  // `x'` is `x` with links into `src` at some names of `dst`.
  ghost predicate Linked(x: Tree, src: Real, dst: Real, names: seq<Name>, x': Tree) {
    && x'.cwd == x.cwd
    && forall p ::
         At(x', p) == if InDir(p, dst) && Last(p) in names then Some(Link(RealPath(src + [Last(p)]))) else At(x, p)
  }

  ghost predicate Removed(x: Tree, dst: Real, names: seq<Name>, x': Tree) {
    x'.cwd == x.cwd && forall p :: At(x', p) == if InDir(p, dst) && Last(p) in names then None else At(x, p)
  }

  // What is found in the two directories between the steps of a run.
  lemma SteadyEntries(m: Tree, o: Opts, x: Tree, n: Name)
    requires Ready(m, o) && Steady(m, Dst(m, o), x)
    ensures WellFormed(x) && DirectoryAt(x, o.dst) == Some(Dst(m, o))
    ensures Dst(x, o) == Dst(m, o) && Entry(x, o.dst, n) == At(x, Dst(m, o) + [n])
    ensures DirectoryAt(x, o.src) == Some(Src(m, o)) && Entry(x, o.src, n) == At(x, Src(m, o) + [n])
  {
    SteadyPaths(m, o, x);
    hide Steady, ClearOf, Canonical, WellFormed;
  }

  lemma DropOne(m: Tree, x: Tree, dst: Real, n: Name)
    requires Steady(m, dst, x) && At(x, dst + [n]) != Some(Directory)
    ensures Removed(x, dst, [n], Drop(x, dst + [n])) && Steady(m, dst, Drop(x, dst + [n]))
    ensures At(Drop(x, dst + [n]), dst + [n]) == None
  {
    PutAndDrop(x, dst + [n], File);
    hide At, Drop;
    forall p
      ensures InDir(p, dst) && Last(p) == n <==> p == dst + [n]
    {
      InDirIff(p, dst, n);
    }
    hide InDir, Last;
  }

  lemma PutOne(m: Tree, x: Tree, src: Real, dst: Real, n: Name)
    requires Steady(m, dst, x) && At(x, dst + [n]) != Some(Directory)
    ensures var x' := Put(x, dst + [n], Link(RealPath(src + [n]))); Linked(x, src, dst, [n], x') && Steady(m, dst, x')
  {
    PutAndDrop(x, dst + [n], Link(RealPath(src + [n])));
    hide At, Put, RealPath;
    forall p
      ensures InDir(p, dst) && Last(p) == n <==> p == dst + [n]
    {
      InDirIff(p, dst, n);
    }
    hide InDir, Last;
  }

  // Linking after removing is linking.
  lemma LinkedOver(x: Tree, src: Real, dst: Real, n: Name, free: Tree, x': Tree)
    requires Removed(x, dst, [n], free) && Linked(free, src, dst, [n], x')
    ensures Linked(x, src, dst, [n], x')
  {
    hide At, InDir, Last, RealPath;
  }

  lemma UnlinkOne(m: Tree, o: Opts, x: Tree, n: Name)
    requires Ready(m, o) && Steady(m, Dst(m, o), x)
    ensures var (x', ok) := Unlink(x, o, n);
            var e := At(x, Dst(m, o) + [n]);
            && (ok <==> e.Some? && !e.value.Directory?)
            && (!ok ==> x' == x)
            && (ok ==> Removed(x, Dst(m, o), [n], x') && Steady(m, Dst(m, o), x') && At(x', Dst(m, o) + [n]) == None)
  {
    SteadyEntries(m, o, x, n);
    hide Ready, DirectoryAt, Entry, At, Steady, Removed, Dst, Drop;
    if Unlink(x, o, n).1 {
      DropOne(m, x, Dst(m, o), n);
    }
  }

  lemma PlaceOne(m: Tree, o: Opts, x: Tree, n: Name)
    requires Ready(m, o) && Steady(m, Dst(m, o), x) && At(x, Src(m, o) + [n]) == Some(File)
    ensures var (x', ok) := Place(x, o, n);
            && (ok <==> At(x, Dst(m, o) + [n]) != Some(Directory))
            && (!ok ==> x' == x)
            && (ok ==> Linked(x, Src(m, o), Dst(m, o), [n], x') && Steady(m, Dst(m, o), x'))
  {
    SteadyEntries(m, o, x, n);
    CanonicalChild(x, o.src, n);
    UnlinkOne(m, o, x, n);
    var src, dst := Src(m, o), Dst(m, o);
    var (free, ok) := if Entry(x, o.dst, n).Some? then Unlink(x, o, n) else (x, true);
    if ok {
      SteadyEntries(m, o, free, n);
      hide Ready, Canonical, DirectoryAt, Entry, At, Steady, Removed, Linked, Dst, Src, Put, Unlink, WellFormed;
      PutOne(m, free, src, dst, n);
      if free != x {
        LinkedOver(x, src, dst, n, free, Place(x, o, n).0);
      }
    }
  }

  /** A name that is not in the source directory is not placed, and its entry in the target stays. */
  lemma NoSourceNoLink(t: Tree, o: Opts, n: Name)
    requires WellFormed(t) && Entry(t, o.src, n) == None
    ensures Place(t, o, n) == (t, false)
  {
    CanonicalChild(t, o.src, n);
  }

  // Index of the first name with a directory in the way, or |names|.
  ghost function StopsAt(x: Tree, dst: Real, names: seq<Name>): (i: nat)
    ensures i <= |names|
    ensures i == |names| <==> forall n :: n in names ==> At(x, dst + [n]) != Some(Directory)
  {
    if names == [] || At(x, dst + [names[0]]) == Some(Directory) then 0
    else
      assert names == [names[0]] + names[1..];
      1 + StopsAt(x, dst, names[1..])
  }

  lemma {:induction false} StopsAtSame(x: Tree, x': Tree, dst: Real, names: seq<Name>)
    requires forall n :: n in names ==>
             (At(x', dst + [n]) == Some(Directory) <==> At(x, dst + [n]) == Some(Directory))
    ensures StopsAt(x', dst, names) == StopsAt(x, dst, names)
  {
    hide At;
    if names != [] {
      assert names[0] in names && forall n :: n in names[1..] ==> n in names;
      StopsAtSame(x, x', dst, names[1..]);
    }
  }

  lemma StopsUnfold(x: Tree, dst: Real, names: seq<Name>)
    requires names != []
    ensures var i := StopsAt(x, dst, names);
            if At(x, dst + [names[0]]) == Some(Directory) then names[..i] == []
            else i == StopsAt(x, dst, names[1..]) + 1 && names[..i] == [names[0]] + names[1..][..i - 1]
  {
    hide At;
    var i := StopsAt(x, dst, names);
    if i > 0 {
      assert i == StopsAt(x, dst, names[1..]) + 1;
      hide StopsAt;
      PrefixUnfold(names, i);
    }
  }

  lemma LinkedTwice(x: Tree, src: Real, dst: Real, first: seq<Name>, x1: Tree, rest: seq<Name>, x2: Tree)
    requires Linked(x, src, dst, first, x1) && Linked(x1, src, dst, rest, x2)
    ensures Linked(x, src, dst, first + rest, x2)
  {
    hide At, InDir, Last, RealPath;
  }

  lemma RestUnaffected(x: Tree, src: Real, dst: Real, n: Name, x1: Tree, rest: seq<Name>)
    requires Linked(x, src, dst, [n], x1) && At(x, dst + [n]) != Some(Directory)
    requires forall k :: k in rest ==> At(x, src + [k]) == Some(File) && (src != dst || k != n)
    ensures forall k :: k in rest ==> At(x1, src + [k]) == Some(File)
    ensures StopsAt(x1, dst, rest) == StopsAt(x, dst, rest)
  {
    hide At, StopsAt, RealPath;
    forall k | k in rest
      ensures At(x1, src + [k]) == Some(File)
      ensures At(x1, dst + [k]) == Some(Directory) <==> At(x, dst + [k]) == Some(Directory)
    {
      InDirIff(src + [k], src, k);
      InDirIff(dst + [k], dst, k);
    }
    StopsAtSame(x, x1, dst, rest);
  }

  lemma NothingLinked(x: Tree, src: Real, dst: Real)
    ensures Linked(x, src, dst, [], x)
  {
  }

  /** Placing links replaces the entries before the first directory in the way, and nothing else. */
  lemma {:induction false} PlaceAllLinks(m: Tree, o: Opts, x: Tree, names: seq<Name>)
    requires Ready(m, o) && Steady(m, Dst(m, o), x)
    requires forall n :: n in names ==> At(x, Src(m, o) + [n]) == Some(File)
    requires Src(m, o) != Dst(m, o) || Distinct(names)
    ensures var (x', ok) := PlaceAll(x, o, names);
            var i := StopsAt(x, Dst(m, o), names);
            && (ok <==> i == |names|)
            && Linked(x, Src(m, o), Dst(m, o), names[..i], x') && Steady(m, Dst(m, o), x')
    decreases names
  {
    hide Ready, Steady, Src, Dst, Place, StopsAt, Linked, At;
    var src, dst := Src(m, o), Dst(m, o);
    if names == [] {
      NothingLinked(x, src, dst);
    } else {
      var n, rest := names[0], names[1..];
      PlaceOne(m, o, x, n);
      StopsUnfold(x, dst, names);
      if Place(x, o, n).1 {
        var x1 := Place(x, o, n).0;
        assert forall k :: k in rest ==> k in names && (src != dst || k != n);
        RestUnaffected(x, src, dst, n, x1, rest);
        PlaceAllLinks(m, o, x1, rest);
        LinkedTwice(x, src, dst, [n], x1, rest[..StopsAt(x, dst, rest)], PlaceAll(x1, o, rest).0);
      } else {
        NothingLinked(x, src, dst);
      }
    }
  }

  lemma RemovedTwice(x: Tree, dst: Real, n: Name, x1: Tree, rest: seq<Name>, x2: Tree)
    requires Removed(x, dst, [n], x1) && Removed(x1, dst, rest, x2)
    ensures Removed(x, dst, [n] + rest, x2)
  {
    hide At, InDir, Last;
  }

  lemma OthersStay(x: Tree, dst: Real, n: Name, x1: Tree, k: Name)
    requires Removed(x, dst, [n], x1) && k != n
    ensures At(x1, dst + [k]) == At(x, dst + [k])
  {
    InDirIff(dst + [k], dst, k);
  }

  // Removing links succeeds and removes just them.
  lemma {:induction false} UnlinkAllLinks(m: Tree, o: Opts, x: Tree, names: seq<Name>)
    requires Ready(m, o) && Steady(m, Dst(m, o), x) && Distinct(names)
    requires forall n :: n in names ==> At(x, Dst(m, o) + [n]).Some? && At(x, Dst(m, o) + [n]).value.Link?
    ensures var (x', ok) := UnlinkAll(x, o, names);
            ok && Removed(x, Dst(m, o), names, x') && Steady(m, Dst(m, o), x')
    decreases names
  {
    var dst := Dst(m, o);
    if names != [] {
      hide Ready, Steady, Dst, Unlink, Removed, At;
      var n, rest := names[0], names[1..];
      UnlinkOne(m, o, x, n);
      var x1 := Unlink(x, o, n).0;
      forall k | k in rest
        ensures At(x1, dst + [k]) == At(x, dst + [k])
      {
        OthersStay(x, dst, n, x1, k);
      }
      UnlinkAllLinks(m, o, x1, rest);
      RemovedTwice(x, dst, n, x1, rest, UnlinkAll(x1, o, rest).0);
      assert names == [n] + rest;
    }
  }

  // ----- what a run does to the tree -----

  // The names a run with this diff links, and those it changes at all.
  ghost predicate Writes(o: Opts, d: UnitDiff, n: Name) {
    n in d.created || n in d.updated || (o.yes && n in d.needsConfirm)
  }

  ghost predicate Changes(o: Opts, d: UnitDiff, n: Name) {
    Writes(o, d, n) || n in d.removed
  }

  // What is at a place after a run on the tree `m`, where the target directory is there.
  ghost function After(m: Tree, o: Opts, d: UnitDiff, p: Real): Option<Node> {
    if InDir(p, Dst(m, o)) && Writes(o, d, Last(p)) then Some(Link(RealPath(Src(m, o) + [Last(p)])))
    else if InDir(p, Dst(m, o)) && Last(p) in d.removed then None
    else At(m, p)
  }

  ghost predicate AfterRun(m: Tree, o: Opts, d: UnitDiff, t': Tree) {
    t'.cwd == m.cwd && forall p :: At(t', p) == After(m, o, d, p)
  }

  // The part of the diff that is carried out: confirmed replacements stop at the first directory.
  ghost function Done(m: Tree, o: Opts, d: UnitDiff): UnitDiff {
    if o.yes then d.(needsConfirm := d.needsConfirm[..StopsAt(m, Dst(m, o), d.needsConfirm)]) else d
  }

  lemma EntriesAre(m: Tree, o: Opts, n: Name)
    requires Ready(m, o)
    ensures Entry(m, o.src, n) == At(m, Src(m, o) + [n]) && Entry(m, o.dst, n) == At(m, Dst(m, o) + [n])
  {
  }

  // Where nothing was placed or removed, everything is as before.
  lemma StagesAt(m: Tree, o: Opts, d: UnitDiff, placed: Tree, cleaned: Tree, n: Name, dir: Real)
    requires Linked(m, Src(m, o), Dst(m, o), d.created + d.updated, placed)
    requires Removed(placed, Dst(m, o), d.removed, cleaned)
    ensures dir != Dst(m, o) || (n !in d.created && n !in d.updated) ==> At(placed, dir + [n]) == At(m, dir + [n])
    ensures dir != Dst(m, o) || n !in d.removed ==> At(cleaned, dir + [n]) == At(placed, dir + [n])
  {
    InDirIff(dir + [n], dir, n);
  }

  // The tree when only the confirmed replacements are left to do.
  lemma UpToConfirming(m: Tree, o: Opts, d: UnitDiff) returns (cleaned: Tree)
    requires Ready(m, o) && Sound(m, o, d)
    ensures Carry(m, o, d) == if o.yes then PlaceAll(cleaned, o, d.needsConfirm) else (cleaned, true)
    ensures AfterRun(m, o.(yes := false), d, cleaned) && Steady(m, Dst(m, o), cleaned)
    ensures forall n :: n in d.needsConfirm ==>
              At(cleaned, Src(m, o) + [n]) == Some(File) && At(cleaned, Dst(m, o) + [n]) == At(m, Dst(m, o) + [n])
  {
    var src, dst, names := Src(m, o), Dst(m, o), d.created + d.updated;
    forall n
      ensures IsSource(m, o, n) <==> At(m, src + [n]) == Some(File)
      ensures Entry(m, o.dst, n) == At(m, dst + [n])
    {
      EntriesAre(m, o, n);
    }
    hide Ready, Src, Dst, PlaceAll, UnlinkAll, StopsAt, At, IsSource, Entry, Linked, Removed, Steady, AfterRun;
    assert src == dst ==> names == [] by {
      NoNewInSource(m, o, d, src, dst);
    }
    assert Steady(m, dst, m) by {
      ItselfSteady(m, dst);
    }
    PlaceAllLinks(m, o, m, names);
    assert StopsAt(m, dst, names) == |names| && names[..|names|] == names;
    var placed := PlaceAll(m, o, names).0;
    cleaned := UnlinkAll(placed, o, d.removed).0;
    forall n | n in d.removed
      ensures At(placed, dst + [n]) == At(m, dst + [n])
    {
      PlacedAt(m, src, dst, names, placed, dst, n);
    }
    UnlinkAllLinks(m, o, placed, d.removed);
    forall n | n in d.needsConfirm
      ensures At(cleaned, src + [n]) == Some(File) && At(cleaned, dst + [n]) == At(m, dst + [n])
    {
      StagesAt(m, o, d, placed, cleaned, n, src);
      StagesAt(m, o, d, placed, cleaned, n, dst);
    }
    StagesAreAfterRun(m, o, d, placed, cleaned);
  }

  // With one directory for both, every unit is a file in the way.
  lemma NoNewInSource(m: Tree, o: Opts, d: UnitDiff, src: Real, dst: Real)
    requires Sound(m, o, d)
    requires forall n :: IsSource(m, o, n) <==> At(m, src + [n]) == Some(File)
    requires forall n :: Entry(m, o.dst, n) == At(m, dst + [n])
    ensures src == dst ==> d.created + d.updated == []
  {
    hide IsSource, Entry, At;
    var names := d.created + d.updated;
    if src == dst {
      forall n
        ensures n !in names
      {
        assert !(n in d.created || n in d.updated);
      }
      Empty(names);
    }
  }

  lemma ItselfSteady(m: Tree, dst: Real)
    ensures Steady(m, dst, m)
  {
  }

  lemma PlacedAt(m: Tree, src: Real, dst: Real, names: seq<Name>, placed: Tree, dir: Real, n: Name)
    requires Linked(m, src, dst, names, placed) && (dir != dst || n !in names)
    ensures At(placed, dir + [n]) == At(m, dir + [n])
  {
    InDirIff(dir + [n], dir, n);
  }

  lemma StagesAreAfterRun(m: Tree, o: Opts, d: UnitDiff, placed: Tree, cleaned: Tree)
    requires Sound(m, o, d)
    requires Linked(m, Src(m, o), Dst(m, o), d.created + d.updated, placed)
    requires Removed(placed, Dst(m, o), d.removed, cleaned)
    ensures AfterRun(m, o.(yes := false), d, cleaned)
  {
    hide At, InDir, Last, RealPath, DirectoryAt, Entry, IsSource;
    assert forall n :: n in d.removed ==> n !in d.created && n !in d.updated;
  }

  lemma ConfirmedPart(m: Tree, o: Opts, d: UnitDiff, cleaned: Tree, t': Tree)
    requires o.yes && AfterRun(m, o.(yes := false), d, cleaned) && Sound(m, o, d)
    requires Linked(cleaned, Src(m, o), Dst(m, o), Done(m, o, d).needsConfirm, t')
    ensures AfterRun(m, o, Done(m, o, d), t')
  {
    hide At, InDir, Last, RealPath, DirectoryAt, Sound, StopsAt;
    var part := Done(m, o, d);
    forall p
      ensures At(t', p) == After(m, o, part, p)
    {
      assert At(cleaned, p) == After(m, o.(yes := false), d, p);
    }
  }

  /** Once the target directory is there, what a run does. */
  lemma CarryOutcome(m: Tree, o: Opts, d: UnitDiff)
    requires Ready(m, o) && Sound(m, o, d)
    ensures var (t', ok) := Carry(m, o, d);
            && (ok <==> (o.yes ==> forall n :: n in d.needsConfirm ==> At(m, Dst(m, o) + [n]) != Some(Directory)))
            && AfterRun(m, o, Done(m, o, d), t') && Steady(m, Dst(m, o), t')
            && (ok ==> Done(m, o, d) == d)
  {
    hide Ready, Carry, Sound, AfterRun, Steady, StopsAt, Src, Dst, At, PlaceAll, Linked;
    var cleaned := UpToConfirming(m, o, d);
    if o.yes {
      assert Src(m, o) != Dst(m, o) || Distinct(d.needsConfirm) by {
        SoundIsDistinct(m, o, d);
      }
      PlaceAllLinks(m, o, cleaned, d.needsConfirm);
      StopsAtSame(m, cleaned, Dst(m, o), d.needsConfirm);
      ConfirmedPart(m, o, d, cleaned, PlaceAll(cleaned, o, d.needsConfirm).0);
    } else {
      assert o.(yes := false) == o;
    }
  }

  lemma SoundIsDistinct(t: Tree, o: Opts, d: UnitDiff)
    requires Sound(t, o, d)
    ensures Distinct(d.needsConfirm)
  {
  }

  // Making the target directory changes nothing a plan looks at.
  lemma MakingKeeps(t: Tree, o: Opts)
    requires Settled(t, o) && MakeDirs(t, o.dst).1
    ensures var made := MakeDirs(t, o.dst).0;
            && Ready(made, o) && Grown(t, made)
            && (DirectoryAt(t, o.dst).Some? ==> made == t)
            && DirectoryAt(made, o.src) == DirectoryAt(t, o.src)
            && (DirectoryAt(t, o.dst).None? ==> Src(made, o) != Dst(made, o))
            && forall n :: (IsSource(made, o, n) <==> IsSource(t, o, n)) && Entry(made, o.dst, n) == Entry(t, o.dst, n)
  {
    MakingGrows(t, o.dst);
    var made := MakeDirs(t, o.dst).0;
    if DirectoryAt(t, o.dst).None? {
      hide MakeDirs, NoUp, Canonical;
      NewTarget(t, o, made);
    }
  }

  lemma NewTarget(t: Tree, o: Opts, made: Tree)
    requires WellFormed(t) && WellFormed(made) && Grown(t, made)
    requires DirectoryAt(t, o.src).Some? && DirectoryAt(made, o.dst).Some? && New(t, made, Dst(made, o))
    ensures Ready(made, o) && DirectoryAt(made, o.src) == DirectoryAt(t, o.src) && Src(made, o) != Dst(made, o)
    ensures forall n :: (IsSource(made, o, n) <==> IsSource(t, o, n)) && Entry(made, o.dst, n) == None
  {
    GrownDirectory(t, made, o.src);
    NothingToMeet(made, o, o.src);
    NothingToMeet(made, o, o.dst);
    hide Canonical, ClearOf, WellFormed;
    forall n
      ensures IsSource(made, o, n) <==> IsSource(t, o, n)
    {
      assert At(made, Src(t, o) + [n]) == At(t, Src(t, o) + [n]) || At(made, Src(t, o) + [n]) == Some(Directory);
    }
  }

  lemma NothingToMeet(t: Tree, o: Opts, p: Path)
    requires forall n :: At(t, Dst(t, o) + [n]) == None
    ensures ClearOf(t, o, p)
  {
    NothingMet(t, Base(t.cwd, p), p.parts, MAX_LINKS);
    var dst := Dst(t, o);
    hide FirstMet, Dst;
    forall q
      ensures q !in LinksIn(t, dst)
    {
      assert InDir(q, dst) ==> q == dst + [Last(q)];
    }
    assert LinksIn(t, dst) == {};
  }

  /**
   A run fails exactly when something that is no directory is on the way to the target directory, or a directory is
   to be replaced with consent.
   Either way it leaves everything as it was but the written and removed entries of the target directory, and new
   directories on the way to it; and it writes all of them up to the directory in the way.
   */
  lemma ApplyOutcome(t: Tree, o: Opts, d: UnitDiff)
    requires Settled(t, o) && Sound(t, o, d)
    ensures var (made, possible) := MakeDirs(t, o.dst);
            var (t', ok) := ApplyDiff(t, o, d);
            && Grown(t, made)
            && (possible <==> CanMake(t, o.dst))
            && (ok <==> CanMake(t, o.dst)
                        && (o.yes ==> forall n :: n in d.needsConfirm ==> Entry(t, o.dst, n) != Some(Directory)))
            && (!possible ==> t' == made)
            && (possible ==> Ready(made, o) && Sound(made, o, d) && Steady(made, Dst(made, o), t')
                             && AfterRun(made, o, Done(made, o, d), t'))
            && (ok ==> Done(made, o, d) == d)
  {
    MakingGrows(t, o.dst);
    MakingIsPossibleIff(t, o);
    if MakeDirs(t, o.dst).1 {
      var made := MakeDirs(t, o.dst).0;
      MakingKeeps(t, o);
      hide CanMake, MakeDirs, Settled, Grown, Carry, AfterRun, Steady, IsSource;
      forall n
        ensures Entry(made, o.dst, n) == At(made, Dst(made, o) + [n])
      {
        EntriesAre(made, o, n);
      }
      hide Entry, Ready, Dst, StopsAt, WellFormed;
      SoundAlso(t, made, o, d);
      hide Sound;
      CarryOutcome(made, o, d);
    }
  }

  lemma MakingIsPossibleIff(t: Tree, o: Opts)
    requires Settled(t, o)
    ensures MakeDirs(t, o.dst).1 <==> CanMake(t, o.dst)
  {
    if DirectoryAt(t, o.dst).Some? {
      assert Prefix(o.dst, |o.dst.parts|) == o.dst;
      assert CanMakeFrom(t, o.dst, |o.dst.parts|);
    } else {
      hide MakeDirs, NoUp;
      MakingSucceedsIff(t, o.dst);
    }
  }

  lemma SoundAlso(t: Tree, made: Tree, o: Opts, d: UnitDiff)
    requires Sound(t, o, d)
    requires forall n :: (IsSource(made, o, n) <==> IsSource(t, o, n)) && Entry(made, o.dst, n) == Entry(t, o.dst, n)
    ensures Sound(made, o, d)
  {
    hide IsSource, Entry;
  }

  // An entry of the target that is not the sync's to change: a link that belongs to no source file and does not
  // lead into the source directory, or anything but a link without consent.
  ghost predicate Foreign(t: Tree, o: Opts, n: Name) {
    var e := Entry(t, o.dst, n);
    && e.Some?
    && if e.value.Link? then (!IsSource(t, o, n) || n == GITKEEP) && !IntoSource(o, e.value.to) else !o.yes
  }

  /** Whether the run succeeds or fails, foreign entries and everything outside the target directory stay. */
  lemma ForeignEntriesStay(t: Tree, o: Opts, sources: seq<Name>, targets: seq<Name>, p: Real)
    requires Settled(t, o) && Distinct(sources) && Distinct(targets) && At(t, p).Some?
    requires DirectoryAt(t, o.dst).Some? && InDir(p, Dst(t, o)) ==> Foreign(t, o, Last(p))
    ensures At(ApplyDiff(t, o, Plan(t, o, sources, targets)).0, p) == At(t, p)
  {
    var d := Plan(t, o, sources, targets);
    PlanIsSound(t, o, sources, targets);
    ApplyOutcome(t, o, d);
    PlanMembers(t, o, sources, targets);
    hide Plan, StopsAt, Sound, Steady, WellFormed;
    var (made, possible) := MakeDirs(t, o.dst);
    assert At(made, p) == At(t, p);
    if possible {
      MakingKeeps(t, o);
      hide ApplyDiff, MakeDirs, Ready, Settled, Grown;
      if InDir(p, Dst(made, o)) {
        EntryIsAt(t, made, o, p);
        NotChanged(t, made, o, d, Last(p));
      }
    }
  }

  lemma EntryIsAt(t: Tree, made: Tree, o: Opts, p: Real)
    requires Ready(made, o) && InDir(p, Dst(made, o)) && At(made, p).Some?
    requires Entry(made, o.dst, Last(p)) == Entry(t, o.dst, Last(p))
    requires DirectoryAt(t, o.dst).Some? ==> made == t
    ensures Entry(t, o.dst, Last(p)) == At(made, p) && DirectoryAt(t, o.dst).Some?
  {
    EntriesAre(made, o, Last(p));
    InDirIff(p, Dst(made, o), Last(p));
  }

  lemma NotChanged(t: Tree, made: Tree, o: Opts, d: UnitDiff, n: Name)
    requires Foreign(t, o, n)
    requires n in d.created ==> Classify(t, o, n) == Created
    requires n in d.updated ==> Classify(t, o, n) == Updated
    requires n in d.needsConfirm ==> Classify(t, o, n) == NeedsConfirm
    requires n in d.removed ==> Stale(t, o, n)
    ensures !Changes(o, Done(made, o, d), n)
  {
    hide Canonical, DirectoryAt, StopsAt;
  }
}
