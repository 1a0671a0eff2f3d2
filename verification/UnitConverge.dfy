/**
 When a second unit sync has nothing left to do, what becomes of links to vanished units, and of
 units whose directory is both source and target.
 */
module UnitConverge {
  import opened Basics
  import opened FileTree
  import opened UnitSync

  // ----- convergence -----

  ghost function ChangedPlaces(m: Tree, o: Opts, d: UnitDiff): set<Real> {
    set n | n in d.created + d.updated + d.removed + (if o.yes then d.needsConfirm else []) :: Dst(m, o) + [n]
  }

  lemma ChangedPlacesAre(m: Tree, o: Opts, d: UnitDiff, p: Real)
    ensures p in ChangedPlaces(m, o, d) <==> InDir(p, Dst(m, o)) && Changes(o, d, Last(p))
  {
    if InDir(p, Dst(m, o)) && Changes(o, d, Last(p)) {
      InDirIff(p, Dst(m, o), Last(p));
      assert Last(p) in d.created + d.updated + d.removed + (if o.yes then d.needsConfirm else []);
    }
    forall n
      ensures p == Dst(m, o) + [n] <==> InDir(p, Dst(m, o)) && Last(p) == n
    {
      InDirIff(p, Dst(m, o), n);
    }
  }

  // The run kept what it relies on.
  ghost predicate Ran(m: Tree, o: Opts, d: UnitDiff, t': Tree) {
    && Ready(m, o) && Sound(m, o, d) && Src(m, o) != Dst(m, o)
    && AfterRun(m, o, d, t') && Steady(m, Dst(m, o), t')
  }

  lemma RanPlaces(m: Tree, o: Opts, d: UnitDiff, t': Tree, n: Name)
    requires Ran(m, o, d, t')
    ensures WellFormed(m) && WellFormed(t')
    ensures DirectoryAt(m, o.src) == DirectoryAt(t', o.src) == Some(Src(m, o)) && Src(t', o) == Src(m, o)
    ensures DirectoryAt(m, o.dst) == DirectoryAt(t', o.dst) == Some(Dst(m, o))
    ensures At(t', Src(m, o) + [n]) == Entry(t', o.src, n) == Entry(m, o.src, n) == At(m, Src(m, o) + [n])
    ensures At(t', Dst(m, o) + [n]) == Entry(t', o.dst, n) == After(m, o, d, Dst(m, o) + [n])
    ensures At(m, Dst(m, o) + [n]) == Entry(m, o.dst, n)
    ensures After(m, o, d, Dst(m, o) + [n])
         == if Writes(o, d, n) then Some(Link(RealPath(Src(m, o) + [n])))
            else if n in d.removed then None else At(m, Dst(m, o) + [n])
  {
    SteadyPaths(m, o, t');
    hide Steady, ClearOf, Canonical;
    InDirIff(Src(m, o) + [n], Src(m, o), n);
    InDirIff(Dst(m, o) + [n], Dst(m, o), n);
  }

  /** What any path resolves to after a run, in terms of the tree before it. */
  lemma ResolvesAfter(m: Tree, o: Opts, d: UnitDiff, t': Tree, p: Path)
    requires Ran(m, o, d, t')
    ensures var met := FirstOn(m, ChangedPlaces(m, o, d), p);
            && (met.None? ==> Canonical(t', p) == Canonical(m, p))
            && (met.Some? ==>
                  var n := Last(met.value.at);
                  Canonical(t', p)
                  == if Writes(o, d, n) && met.value.links > 0 && met.value.rest == [] then Some(Src(m, o) + [n])
                     else None)
  {
    var places := ChangedPlaces(m, o, d);
    forall q
      ensures q in places <==> InDir(q, Dst(m, o)) && Changes(o, d, Last(q))
    {
      ChangedPlacesAre(m, o, d, q);
    }
    assert SameOutside(m, t', places);
    hide ChangedPlaces;
    WalkFromFirst(m, t', places, Base(m.cwd, p), p.parts, MAX_LINKS);
    var met := FirstOn(m, places, p);
    hide FirstMet, Walk;
    if met.Some? {
      var Meeting(q, rest, links) := met.value;
      var n := Last(q);
      RanPlaces(m, o, d, t', n);
      InDirIff(q, Dst(m, o), n);
      assert Writes(o, d, n) ==> At(t', Src(m, o) + [n]) == Some(File) by {
        assert Writes(o, d, n) ==> IsSource(m, o, n);
      }
      hide Ran, Ready, DirectoryAt, Entry, After;
      FromChanged(t', Src(m, o), Dst(m, o), n, Writes(o, d, n), rest, links);
    }
  }

  // Going on from an entry the run changed.
  lemma FromChanged(t: Tree, src: Real, dst: Real, n: Name, written: bool, rest: seq<Part>, links: nat)
    requires WellFormed(t) && (written ==> At(t, src + [n]) == Some(File))
    requires At(t, dst + [n]) == if written then Some(Link(RealPath(src + [n]))) else None
    ensures Walk(t, dst, [Down(n)] + rest, links)
         == if written && links > 0 && rest == [] then Some(src + [n]) else None
  {
    hide Walk;
    StepFrom(t, dst, n, rest, links);
    if written && links > 0 {
      RealFile(t, src + [n], rest, links - 1);
    }
  }

  // The link `n` resolves without meeting an entry the run changes.
  ghost predicate KeepsResolving(m: Tree, o: Opts, d: UnitDiff, n: Name) {
    && Entry(m, o.dst, n).Some? && Entry(m, o.dst, n).value.Link?
    && FirstOn(m, ChangedPlaces(m, o, d), Join(o.dst, Entry(m, o.dst, n).value.to)).None?
  }

  // The first entry met that the run changes is removed by it; or it becomes a link to a file with more path to go,
  // or one link too many.
  ghost predicate Breaks(m: Tree, o: Opts, d: UnitDiff, p: Path) {
    var met := FirstOn(m, ChangedPlaces(m, o, d), p);
    met.Some? && (!Writes(o, d, Last(met.value.at)) || met.value.rest != [] || met.value.links == 0)
  }

  // The run leaves alone the link `n` into the source directory, but breaks the source entry that justifies it:
  // that one is a link itself, through an entry that the run changes.
  ghost predicate Orphaned(m: Tree, o: Opts, d: UnitDiff, n: Name) {
    && Entry(m, o.dst, n).Some? && Entry(m, o.dst, n).value.Link? && IntoSource(o, Entry(m, o.dst, n).value.to)
    && !Changes(o, d, n) && Exists(m, Child(o.src, n)) && Breaks(m, o, d, Child(o.src, n))
  }

  lemma NotSkipped(t: Tree, o: Opts, n: Name)
    ensures Classify(t, o, n) != Skip <==> IsSource(t, o, n) && n != GITKEEP
  {
  }

  // How a second run classifies any name.
  lemma ClassAfter(m: Tree, o: Opts, d: UnitDiff, t': Tree, n: Name)
    requires Ran(m, o, d, t')
    requires n in d.created <==> Classify(m, o, n) == Created
    requires n in d.updated <==> Classify(m, o, n) == Updated
    requires n in d.upToDate <==> Classify(m, o, n) == Unchanged
    requires n in d.needsConfirm <==> Classify(m, o, n) == NeedsConfirm
    ensures Classify(t', o, n) != Created
    ensures Classify(t', o, n) == Updated <==> n in d.upToDate && !KeepsResolving(m, o, d, n)
    ensures Classify(t', o, n) == NeedsConfirm <==> n in d.needsConfirm && !o.yes
  {
    hide Ran, Canonical, DirectoryAt, RealPath, FirstOn, ChangedPlaces, At, Classify, Names, Entry, WellFormed, Join;
    RanPlaces(m, o, d, t', n);
    var src, e := Src(m, o), Entry(m, o.dst, n);
    if IsSource(m, o, n) && n != GITKEEP {
      ClassIs(m, o, n);
      ClassIs(t', o, n);
      SourcePath(t', o.dst, src + [n]);
      SoundRemoved(m, o, d, t', n);
      if e.Some? && e.value.Link? {
        ResolvesAfter(m, o, d, t', Join(o.dst, e.value.to));
        LastName(m, o, d, Join(o.dst, e.value.to));
      }
    } else {
      NotSkipped(m, o, n);
      NotSkipped(t', o, n);
    }
  }

  // Another written name leads to another source file.
  lemma LastName(m: Tree, o: Opts, d: UnitDiff, p: Path)
    ensures var met := FirstOn(m, ChangedPlaces(m, o, d), p);
            met.Some? ==> forall n :: Src(m, o) + [Last(met.value.at)] == Src(m, o) + [n] ==> Last(met.value.at) == n
  {
    forall a: Name, b: Name
      ensures Src(m, o) + [a] == Src(m, o) + [b] ==> a == b
    {
      assert (Src(m, o) + [a])[|Src(m, o)|] == a && (Src(m, o) + [b])[|Src(m, o)|] == b;
    }
    hide *;
  }

  lemma SoundRemoved(m: Tree, o: Opts, d: UnitDiff, t': Tree, n: Name)
    requires Ran(m, o, d, t') && IsSource(m, o, n)
    ensures n !in d.removed
  {
  }

  // A second run finds exactly the links stale that the first one orphaned.
  lemma StaleAgainIff(m: Tree, o: Opts, d: UnitDiff, t': Tree, n: Name)
    requires Ran(m, o, d, t')
    requires Stale(m, o, n) ==> n in d.removed
    ensures Stale(t', o, n) <==> Orphaned(m, o, d, n)
  {
    RanPlaces(m, o, d, t', n);
    ResolvesAfter(m, o, d, t', Child(o.src, n));
    if Writes(o, d, n) {
      assert IsSource(m, o, n);
      CanonicalChild(t', o.src, n);
    }
    CanonicalChild(m, o.src, n);
    ChildStays(m, o, d, t', n);
    hide Ran, Canonical, DirectoryAt, RealPath, FirstOn, ChangedPlaces, At, WellFormed, IntoSource, Entry;
  }

  // A name that does not resolve before the run, resolves after it only if it was written.
  lemma ChildStays(m: Tree, o: Opts, d: UnitDiff, t': Tree, n: Name)
    requires Ran(m, o, d, t')
    ensures Exists(m, Child(o.src, n)) ==> (Exists(t', Child(o.src, n)) <==> !Breaks(m, o, d, Child(o.src, n)))
  {
    ResolvesAfter(m, o, d, t', Child(o.src, n));
    hide Ran, Canonical, FirstOn, ChangedPlaces;
  }

  // A second diff has nothing to do beyond what still lacks consent.
  ghost predicate Quiet(o: Opts, first: UnitDiff, second: UnitDiff) {
    && second.created == [] && second.updated == [] && second.removed == []
    && forall n :: n in second.needsConfirm <==> n in first.needsConfirm && !o.yes
  }

  /**
   After a successful run a second run has nothing to do, exactly when no link found up to date was resolved
   through a target entry that the first run replaced or removed, and no link kept because of a source entry that
   is itself a link was orphaned.
   */
  lemma ConvergesIff(t: Tree, o: Opts, sources: seq<Name>, targets: seq<Name>, sources': seq<Name>, targets': seq<Name>)
    requires Settled(t, o) && DirectoryAt(t, o.src) != DirectoryAt(t, o.dst)
    requires Lists(t, o.src, sources) && Lists(t, o.dst, targets)
    requires ApplyDiff(t, o, Plan(t, o, sources, targets)).1
    requires var t' := ApplyDiff(t, o, Plan(t, o, sources, targets)).0;
             Lists(t', o.src, sources') && Lists(t', o.dst, targets')
    ensures var d, t' := Plan(t, o, sources, targets), ApplyDiff(t, o, Plan(t, o, sources, targets)).0;
            Quiet(o, d, Plan(t', o, sources', targets'))
            <==> (forall n :: n in d.upToDate ==> KeepsResolving(t, o, d, n)) && (forall n :: !Orphaned(t, o, d, n))
  {
    var d, t' := Plan(t, o, sources, targets), ApplyDiff(t, o, Plan(t, o, sources, targets)).0;
    var d', made := Plan(t', o, sources', targets'), MakeDirs(t, o.dst).0;
    RanFrom(t, o, sources, targets);
    hide ApplyDiff, Plan, Settled, Ran, Stale, Classify, KeepsResolving, Orphaned, Lists, MakeDirs;
    forall n
      ensures n !in d'.created
      ensures n in d'.updated <==> n in d.upToDate && !KeepsResolving(t, o, d, n)
      ensures n in d'.needsConfirm <==> n in d.needsConfirm && !o.yes
      ensures n in d'.removed <==> Orphaned(t, o, d, n)
    {
      DiffAt(t, o, sources, targets, n);
      DiffAt(t', o, sources', targets', n);
      SameAsMade(t, o, d, n);
      ClassAfter(made, o, d, t', n);
      StaleAgainIff(made, o, d, t', n);
    }
    Empty(d'.created);
    Empty(d'.updated);
    Empty(d'.removed);
  }

  lemma RanFrom(t: Tree, o: Opts, sources: seq<Name>, targets: seq<Name>)
    requires Settled(t, o) && DirectoryAt(t, o.src) != DirectoryAt(t, o.dst)
    requires Lists(t, o.src, sources) && Lists(t, o.dst, targets)
    requires ApplyDiff(t, o, Plan(t, o, sources, targets)).1
    ensures var d := Plan(t, o, sources, targets);
            MakeDirs(t, o.dst).1 && Ran(MakeDirs(t, o.dst).0, o, d, ApplyDiff(t, o, d).0)
  {
    var d := Plan(t, o, sources, targets);
    PlanIsSound(t, o, sources, targets);
    hide Plan, Sound, AfterRun, Steady, StopsAt, ApplyDiff, Carry;
    ApplyOutcome(t, o, d);
    MakingKeeps(t, o);
    hide Grown, MakeDirs, ClearOf, Canonical;
  }

  // The conditions are about the tree before the target directory was made.
  lemma SameAsMade(t: Tree, o: Opts, d: UnitDiff, n: Name)
    requires Settled(t, o) && MakeDirs(t, o.dst).1
    ensures var made := MakeDirs(t, o.dst).0;
            && Classify(made, o, n) == Classify(t, o, n) && (Stale(made, o, n) <==> Stale(t, o, n))
            && (KeepsResolving(made, o, d, n) <==> KeepsResolving(t, o, d, n))
            && (Orphaned(made, o, d, n) <==> Orphaned(t, o, d, n))
  {
    MakingKeeps(t, o);
    hide MakeDirs, Settled, Ready, Grown, Canonical;
    if DirectoryAt(t, o.dst).None? {
      assert Entry(t, o.dst, n) == None;
    }
  }

  // The buckets of a plan from complete listings, name by name.
  lemma DiffAt(t: Tree, o: Opts, sources: seq<Name>, targets: seq<Name>, n: Name)
    requires Lists(t, o.src, sources) && Lists(t, o.dst, targets)
    ensures var d := Plan(t, o, sources, targets);
            && (n in d.created <==> Classify(t, o, n) == Created)
            && (n in d.updated <==> Classify(t, o, n) == Updated)
            && (n in d.upToDate <==> Classify(t, o, n) == Unchanged)
            && (n in d.needsConfirm <==> Classify(t, o, n) == NeedsConfirm)
            && (n in d.removed <==> Stale(t, o, n))
  {
    PlanMembers(t, o, sources, targets);
    NotSkipped(t, o, n);
    assert Stale(t, o, n) ==> n in targets;
    hide Plan, Classify, Stale;
  }

  /**
   A link a run placed is cleaned up after its source file vanishes exactly when the source directory was
   given by its canonical spelling.
   */
  lemma VanishedSourceIsCleanedIff(t: Tree, o: Opts, sources: seq<Name>, targets: seq<Name>, n: Name,
                                   targets': seq<Name>)
    requires Settled(t, o) && DirectoryAt(t, o.src) != DirectoryAt(t, o.dst)
    requires Lists(t, o.src, sources) && Lists(t, o.dst, targets)
    requires ApplyDiff(t, o, Plan(t, o, sources, targets)).1 && Writes(o, Plan(t, o, sources, targets), n)
    requires var later := Drop(ApplyDiff(t, o, Plan(t, o, sources, targets)).0, Src(t, o) + [n]);
             Lists(later, o.dst, targets')
    ensures var later := Drop(ApplyDiff(t, o, Plan(t, o, sources, targets)).0, Src(t, o) + [n]);
            n in SelectStale(later, o, targets') <==> o.src == RealPath(Src(t, o))
  {
    var d := Plan(t, o, sources, targets);
    var t', made := ApplyDiff(t, o, d).0, MakeDirs(t, o.dst).0;
    RanFrom(t, o, sources, targets);
    MakingKeeps(t, o);
    assert Src(made, o) == Src(t, o);
    hide ApplyDiff, Plan, Settled, MakeDirs, Ready, Lists;
    RanPlaces(made, o, d, t', n);
    assert At(t', Src(t, o) + [n]) == Some(File) by {
      assert Sound(made, o, d) && IsSource(made, o, n);
    }
    hide Ran, Sound, After, Src, Dst, Drop, Select, SelectStale, Writes;
    VanishedIsStaleIff(t', o, Src(t, o), Dst(made, o), n, targets');
  }

  lemma VanishedIsStaleIff(t: Tree, o: Opts, src: Real, dst: Real, n: Name, targets: seq<Name>)
    requires WellFormed(t) && src != dst && At(t, src + [n]) == Some(File)
    requires DirectoryAt(t, o.src) == Some(src) && DirectoryAt(t, o.dst) == Some(dst)
    requires At(t, dst + [n]) == Some(Link(RealPath(src + [n]))) && Lists(Drop(t, src + [n]), o.dst, targets)
    ensures n in SelectStale(Drop(t, src + [n]), o, targets) <==> o.src == RealPath(src)
  {
    hide Canonical, Drop, RealPath, IntoSource;
    var later := Drop(t, src + [n]);
    DirectoryWithout(t, o.src, src, n);
    DirectoryWithout(t, o.dst, src, n);
    hide WellFormed;
    InDirIff(dst + [n], src, n);
    InDirIff(dst + [n], dst, n);
    assert Entry(later, o.dst, n) == Some(Link(RealPath(src + [n])));
    assert Entry(later, o.src, n) == None;
    hide DirectoryAt, Entry, At;
    CanonicalChild(later, o.src, n);
    SelectStaleIs(later, o, targets);
    IntoSourceIff(o, src, n);
  }

  lemma IntoSourceIff(o: Opts, src: Real, n: Name)
    ensures IntoSource(o, RealPath(src + [n])) <==> o.src == RealPath(src)
  {
    ParentOfReal(src, n);
  }

  // Removing a file disturbs no path to a directory.
  lemma DirectoryWithout(t: Tree, p: Path, dir: Real, n: Name)
    requires WellFormed(t) && At(t, dir + [n]) == Some(File) && DirectoryAt(t, p).Some?
    ensures var later := Drop(t, dir + [n]);
            && WellFormed(later) && DirectoryAt(later, p) == DirectoryAt(t, p)
            && forall q :: At(later, q) == if q == dir + [n] then None else At(t, q)
  {
    var later := Drop(t, dir + [n]);
    PutAndDrop(t, dir + [n], File);
    NothingMet(t, Base(t.cwd, p), p.parts, MAX_LINKS);
    OnlyLinksMatter(t, {dir + [n]}, {}, Base(t.cwd, p), p.parts, MAX_LINKS);
    WalkFromFirst(t, later, {dir + [n]}, Base(t.cwd, p), p.parts, MAX_LINKS);
    hide Walk, FirstMet, Drop;
    forall q | q in later.nodes
      ensures q != [] && IsDirectory(later, Parent(q))
    {
      assert At(later, q).Some? && q in t.nodes;
    }
  }

  lemma ParentOfReal(dir: Real, n: Name)
    ensures var p := RealPath(dir + [n]); p.parts != [] && p.(parts := p.parts[..|p.parts| - 1]) == RealPath(dir)
  {
    assert Names(dir + [n])[..|dir|] == Names(dir);
  }

  // ----- one directory for both -----

  /**
   With the source directory as target every unit needs confirmation; without consent they stay, and with consent
   each is replaced by a link to itself.
   */
  lemma SelfSyncLosesUnits(t: Tree, o: Opts, sources: seq<Name>, targets: seq<Name>, n: Name)
    requires Settled(t, o) && DirectoryAt(t, o.src) == DirectoryAt(t, o.dst)
    requires Lists(t, o.src, sources) && Distinct(targets) && IsSource(t, o, n) && n != GITKEEP
    ensures var d := Plan(t, o, sources, targets);
            var (t', ok) := ApplyDiff(t, o, d);
            && ok && d.created == [] && d.updated == [] && d.upToDate == [] && n in d.needsConfirm
            && (!o.yes ==> IsSource(t', o, n))
            && (o.yes ==> Entry(t', o.src, n) == Some(Link(RealPath(Src(t, o) + [n]))) && !Exists(t', Child(o.src, n)))
  {
    var d := Plan(t, o, sources, targets);
    PlanIsSound(t, o, sources, targets);
    SelfPlan(t, o, sources, targets, n);
    hide Plan, ApplyDiff, Steady, AfterRun, StopsAt, Canonical, MakeDirs, Settled, Sound, IsSource, Entry, Exists;
    ApplyOutcome(t, o, d);
    assert MakeDirs(t, o.dst) == (t, true);
    hide Ready;
    SelfOutcome(t, o, d, ApplyDiff(t, o, d).0, n);
  }

  lemma SelfPlan(t: Tree, o: Opts, sources: seq<Name>, targets: seq<Name>, n: Name)
    requires WellFormed(t) && DirectoryAt(t, o.src) == DirectoryAt(t, o.dst)
    requires Lists(t, o.src, sources) && IsSource(t, o, n) && n != GITKEEP
    ensures var d := Plan(t, o, sources, targets);
            && d.created == [] && d.updated == [] && d.upToDate == [] && n in d.needsConfirm && n !in d.removed
            && forall k :: k in d.needsConfirm ==> Entry(t, o.dst, k) == Some(File)
    ensures DirectoryAt(t, o.dst).Some? ==> MakeDirs(t, o.dst) == (t, true)
  {
    var d := Plan(t, o, sources, targets);
    PlanMembers(t, o, sources, targets);
    hide Plan, Canonical, RealPath;
    forall k
      ensures Classify(t, o, k) == Skip || (Classify(t, o, k) == NeedsConfirm && Entry(t, o.dst, k) == Some(File))
    {
      assert Entry(t, o.src, k) == Entry(t, o.dst, k);
    }
    Empty(d.created);
    Empty(d.updated);
    Empty(d.upToDate);
    NotSkipped(t, o, n);
    assert Entry(t, o.dst, n) == Some(File);
  }

  lemma SelfOutcome(t: Tree, o: Opts, d: UnitDiff, t': Tree, n: Name)
    requires Ready(t, o) && DirectoryAt(t, o.src) == DirectoryAt(t, o.dst) && IsSource(t, o, n)
    requires AfterRun(t, o, d, t') && Steady(t, Dst(t, o), t')
    requires d.created == [] && d.updated == [] && n in d.needsConfirm && n !in d.removed
    ensures !o.yes ==> IsSource(t', o, n)
    ensures o.yes ==> Entry(t', o.src, n) == Some(Link(RealPath(Src(t, o) + [n]))) && !Exists(t', Child(o.src, n))
  {
    var src := Src(t, o);
    assert src == Dst(t, o);
    EntriesAre(t, o, n);
    SteadyEntries(t, o, t', n);
    InDirIff(src + [n], src, n);
    assert At(t', src + [n]) == After(t, o, d, src + [n]);
    hide Ready, Steady, AfterRun, DirectoryAt, Entry, Canonical;
    if o.yes {
      CanonicalChild(t', o.src, n);
      SelfLinkLoops(t', src + [n], LinksLeft(t', Base(t'.cwd, o.src), o.src.parts, MAX_LINKS));
      assert [Down(n)] + [] == [Down(n)];
      assert Parent(src + [n]) == src && Last(src + [n]) == n;
    }
  }
}
