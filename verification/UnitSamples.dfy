/** Trees on which one unit sync is not enough. */
module UnitSamples {
  import opened Basics
  import opened FileTree
  import opened UnitSync
  import opened UnitConverge

  const OPTS := Opts(RealPath(["src"]), RealPath(["dst"]), true)

  // Two directories with files and links in them.
  ghost predicate Flat(entries: map<Real, Node>) {
    forall p :: p in entries ==> |p| == 2 && (p[0] == "src" || p[0] == "dst") && !entries[p].Directory?
  }

  function Sample(entries: map<Real, Node>): Tree {
    Tree([], entries + map[["src"] := Directory, ["dst"] := Directory])
  }

  lemma SampleAt(entries: map<Real, Node>)
    requires Flat(entries)
    ensures var t := Sample(entries);
            && (forall p :: |p| == 2 ==> At(t, p) == if p in entries then Some(entries[p]) else None)
            && At(t, ["src"]) == At(t, ["dst"]) == Some(Directory)
            && WellFormed(t)
  {
    var t := Sample(entries);
    forall p | p in t.nodes
      ensures p != [] && IsDirectory(t, Parent(p))
    {
      if p in entries {
        assert Parent(p) == [p[0]];
      }
    }
  }

  // A walk to an entry of one of the two directories goes on from there.
  lemma SampleWalk(entries: map<Real, Node>, d: Name, n: Name, rest: seq<Part>, links: nat)
    requires Flat(entries) && (d == "src" || d == "dst")
    ensures Walk(Sample(entries), [], Names([d, n]) + rest, links)
         == Walk(Sample(entries), [d], [Down(n)] + rest, links)
  {
    SampleAt(entries);
    StepFrom(Sample(entries), [], d, [Down(n)] + rest, links);
    assert Names([d, n]) + rest == [Down(d)] + ([Down(n)] + rest);
    assert [] + [d] == [d];
    hide Walk, Sample;
  }

  lemma SampleMet(entries: map<Real, Node>, places: set<Real>, d: Name, n: Name, rest: seq<Part>, links: nat)
    requires Flat(entries) && (d == "src" || d == "dst") && [d] !in places
    ensures FirstMet(Sample(entries), places, [], Names([d, n]) + rest, links)
         == FirstMet(Sample(entries), places, [d], [Down(n)] + rest, links)
  {
    SampleAt(entries);
    FirstStep(Sample(entries), places, [], d, [Down(n)] + rest, links);
    assert Names([d, n]) + rest == [Down(d)] + ([Down(n)] + rest);
    assert [] + [d] == [d];
    hide FirstMet, Sample;
  }

  lemma SampleDirectory(entries: map<Real, Node>, d: Name)
    requires Flat(entries) && (d == "src" || d == "dst")
    ensures var t := Sample(entries);
            && DirectoryAt(t, RealPath([d])) == Some([d])
            && (forall n :: Entry(t, RealPath([d]), n) == At(t, [d, n]))
            && forall places: set<Real> :: [d] !in places ==> FirstOn(t, places, RealPath([d])).None?
  {
    hide Walk, FirstMet, Sample, Flat;
    SampleAt(entries);
    var t := Sample(entries);
    assert Names([d]) == [Down(d)] + [] && [] + [d] == [d];
    StepFrom(t, [], d, [], MAX_LINKS);
    StepNowhere(t, [d], MAX_LINKS);
    assert forall n: Name :: [d] + [n] == [d, n];
    forall places: set<Real> | [d] !in places
      ensures FirstOn(t, places, RealPath([d])).None?
    {
      FirstStep(t, places, [], d, [], MAX_LINKS);
      MeetsNothing(t, places, [d], MAX_LINKS);
    }
  }

  lemma SampleReady(entries: map<Real, Node>)
    requires Flat(entries)
    ensures var t := Sample(entries);
            && Ready(t, OPTS) && Src(t, OPTS) == ["src"] && Dst(t, OPTS) == ["dst"]
            && (forall n :: Entry(t, OPTS.src, n) == At(t, ["src", n]) && Entry(t, OPTS.dst, n) == At(t, ["dst", n]))
  {
    SampleAt(entries);
    SampleDirectory(entries, "src");
    SampleDirectory(entries, "dst");
    var t := Sample(entries);
    assert Parent(["src"]) == [] && Parent(["dst"]) == [];
    hide FirstOn, Canonical, RealPath, Sample;
  }

  // What a second run finds after the first run on a sample.
  lemma SecondRun(entries: map<Real, Node>, sources: seq<Name>, targets: seq<Name>, n: Name)
    requires Flat(entries)
    requires Lists(Sample(entries), OPTS.src, sources) && Lists(Sample(entries), OPTS.dst, targets)
    ensures var t := Sample(entries);
            var d := Plan(t, OPTS, sources, targets);
            var (t', ok) := ApplyDiff(t, OPTS, d);
            && ok
            && (Classify(t, OPTS, n) == Unchanged && !KeepsResolving(t, OPTS, d, n) ==>
                  Classify(t', OPTS, n) == Updated)
            && (Orphaned(t, OPTS, d, n) ==> Stale(t', OPTS, n))
  {
    var t := Sample(entries);
    var d := Plan(t, OPTS, sources, targets);
    SampleReady(entries);
    SampleAt(entries);
    PlanIsSound(t, OPTS, sources, targets);
    DiffAt(t, OPTS, sources, targets, n);
    assert MakeDirs(t, OPTS.dst) == (t, true);
    hide Plan, Sample, Ready, Sound, Classify, Stale, KeepsResolving, Orphaned, StopsAt, Canonical, MakeDirs;
    assert Settled(t, OPTS);
    forall k
      ensures Entry(t, OPTS.dst, k) != Some(Directory)
    {
      assert |["dst", k]| == 2;
    }
    ApplyOutcome(t, OPTS, d);
    hide ApplyDiff, AfterRun, Steady;
    ClassAfter(t, OPTS, d, ApplyDiff(t, OPTS, d).0, n);
    StaleAgainIff(t, OPTS, d, ApplyDiff(t, OPTS, d).0, n);
  }

  lemma SampleSource(entries: map<Real, Node>, n: Name, links: nat)
    requires Flat(entries) && ["src", n] in entries && entries[["src", n]] == File
    ensures Walk(Sample(entries), [], Names(["src", n]), links) == Some(["src", n])
  {
    SampleAt(entries);
    RealFile(Sample(entries), ["src", n], [], links);
    assert Names(["src", n]) + [] == Names(["src", n]);
  }

  // Following a link found in one of the two directories to a real path.
  lemma SampleLink(entries: map<Real, Node>, d: Name, n: Name, to: Real, rest: seq<Part>, links: nat)
    requires Flat(entries) && (d == "src" || d == "dst") && links > 0
    requires [d, n] in entries && entries[[d, n]] == Link(RealPath(to))
    ensures Walk(Sample(entries), [], Names([d, n]) + rest, links)
         == Walk(Sample(entries), [], Names(to) + rest, links - 1)
  {
    hide Walk;
    SampleAt(entries);
    SampleWalk(entries, d, n, rest, links);
    StepFrom(Sample(entries), [d], n, rest, links);
    assert [d] + [n] == [d, n];
  }

  // Meeting a changed entry of the target directory.
  lemma SampleMeets(entries: map<Real, Node>, places: set<Real>, n: Name, rest: seq<Part>, links: nat)
    requires Flat(entries) && ["dst"] !in places && ["dst", n] in places
    ensures FirstMet(Sample(entries), places, [], Names(["dst", n]) + rest, links)
         == Some(Meeting(["dst", n], rest, links))
  {
    SampleMet(entries, places, "dst", n, rest, links);
    assert ([Down(n)] + rest)[1..] == rest && ["dst"] + [n] == ["dst", n];
  }

  lemma SampleChanges(entries: map<Real, Node>, d: UnitDiff, n: Name)
    requires Flat(entries)
    ensures var places := ChangedPlaces(Sample(entries), OPTS, d);
            ["dst"] !in places && (["dst", n] in places <==> Changes(OPTS, d, n))
  {
    SampleReady(entries);
    ChangedPlacesAre(Sample(entries), OPTS, d, ["dst"]);
    ChangedPlacesAre(Sample(entries), OPTS, d, ["dst", n]);
    assert Parent(["dst"]) == [] && Parent(["dst", n]) == ["dst"];
  }

  // A source file whose target link is another path to it is up to date.
  lemma SampleUpToDate(entries: map<Real, Node>, n: Name, to: Path)
    requires Flat(entries) && n != GITKEEP && ["src", n] in entries && entries[["src", n]] == File
    requires ["dst", n] in entries && entries[["dst", n]] == Link(to) && to.abs
    requires Canonical(Sample(entries), to) == Some(["src", n])
    ensures Classify(Sample(entries), OPTS, n) == Unchanged
  {
    SampleReady(entries);
    SampleAt(entries);
    assert ["src"] + [n] == ["src", n];
    hide Canonical, Sample, RealPath, Ready;
  }

  // A target link into the source directory under a name that is not there.
  lemma SampleStale(entries: map<Real, Node>, n: Name, k: Name)
    requires Flat(entries) && ["src", n] !in entries
    requires ["dst", n] in entries && entries[["dst", n]] == Link(RealPath(["src", k]))
    ensures Stale(Sample(entries), OPTS, n)
  {
    hide Canonical, Sample, RealPath, Ready, IntoSource, Entry;
    SampleReady(entries);
    SampleAt(entries);
    CanonicalChild(Sample(entries), OPTS.src, n);
    IntoSources(k);
  }

  lemma SampleEntry(entries: map<Real, Node>, n: Name)
    requires Flat(entries) && ["dst", n] in entries
    ensures Entry(Sample(entries), OPTS.dst, n) == Some(entries[["dst", n]])
  {
    SampleReady(entries);
    SampleAt(entries);
    hide Sample, Ready, Entry;
  }

  lemma FullPath(p: Real)
    ensures Names(p) + [] == Names(p)
  {
  }

  // Two target links, one reaching its source through the other, which is stale and gets removed.
  const CHAINED := map[["src", "a"] := File, ["dst", "a"] := Link(RealPath(["dst", "b"])),
                       ["dst", "b"] := Link(RealPath(["src", "a"]))]

  lemma ChainedUpToDate()
    ensures Flat(CHAINED) && Classify(Sample(CHAINED), OPTS, "a") == Unchanged
  {
    hide Walk, Sample;
    FullPath(["dst", "b"]);
    FullPath(["src", "a"]);
    SampleLink(CHAINED, "dst", "b", ["src", "a"], [], MAX_LINKS);
    SampleSource(CHAINED, "a", MAX_LINKS - 1);
    SampleUpToDate(CHAINED, "a", RealPath(["dst", "b"]));
  }

  /** A link that is up to date only through a stale one is left dangling: the second run has to redo it. */
  lemma ChainedLinkNeedsSecondRun(sources: seq<Name>, targets: seq<Name>)
    requires Lists(Sample(CHAINED), OPTS.src, sources) && Lists(Sample(CHAINED), OPTS.dst, targets)
    ensures var (t', ok) := ApplyDiff(Sample(CHAINED), OPTS, Plan(Sample(CHAINED), OPTS, sources, targets));
            ok && Classify(Sample(CHAINED), OPTS, "a") == Unchanged && Classify(t', OPTS, "a") == Updated
  {
    var t := Sample(CHAINED);
    var d := Plan(t, OPTS, sources, targets);
    ChainedUpToDate();
    SampleStale(CHAINED, "b", "a");
    assert CHAINED[["dst", "a"]] == Link(RealPath(["dst", "b"])) && ["dst", "a"] in CHAINED;
    hide CHAINED, OPTS, RealPath, Names;
    DiffAt(t, OPTS, sources, targets, "b");
    hide Sample, Plan, Classify, Stale, ApplyDiff, FirstMet, ChangedPlaces, Canonical;
    SampleChanges(CHAINED, d, "b");
    FullPath(["dst", "b"]);
    SampleMeets(CHAINED, ChangedPlaces(t, OPTS, d), "b", [], MAX_LINKS);
    SampleEntry(CHAINED, "a");
    assert !KeepsResolving(t, OPTS, d, "a");
    SecondRun(CHAINED, sources, targets, "a");
  }

  // The target link a goes through the target entry d, a link to the source directory that becomes one to a file.
  const THROUGH := map[["src", "a"] := File, ["src", "d"] := File, ["dst", "d"] := Link(RealPath(["src"])),
                       ["dst", "a"] := Link(RealPath(["dst", "d", "a"]))]

  lemma ThroughUpToDate()
    ensures Flat(THROUGH) && Classify(Sample(THROUGH), OPTS, "a") == Unchanged
    ensures Names(["dst", "d", "a"]) == Names(["dst", "d"]) + [Down("a")]
  {
    hide Walk, Sample;
    assert Names(["dst", "d", "a"]) == Names(["dst", "d"]) + [Down("a")];
    assert Names(["src", "a"]) == Names(["src"]) + [Down("a")];
    SampleLink(THROUGH, "dst", "d", ["src"], [Down("a")], MAX_LINKS);
    SampleSource(THROUGH, "a", MAX_LINKS - 1);
    SampleUpToDate(THROUGH, "a", RealPath(["dst", "d", "a"]));
  }

  lemma ThroughReplaced()
    ensures Flat(THROUGH) && Classify(Sample(THROUGH), OPTS, "d") == Updated
  {
    hide Sample, Names, Classify;
    SampleReplaced(THROUGH, "d");
  }

  // A source file whose target link leads to the source directory is linked anew.
  lemma SampleReplaced(entries: map<Real, Node>, n: Name)
    requires Flat(entries) && n != GITKEEP && ["src", n] in entries && entries[["src", n]] == File
    requires ["dst", n] in entries && entries[["dst", n]] == Link(RealPath(["src"]))
    ensures Classify(Sample(entries), OPTS, n) == Updated
  {
    SampleReady(entries);
    SampleAt(entries);
    SampleDirectory(entries, "src");
    if RealPath(["src"]) == RealPath(["src", n]) {
      NamesAreInjective(["src"], ["src", n]);
    }
    assert ["src"] + [n] == ["src", n];
    hide FirstOn, Sample, Ready, Names, IsDirectory, Src, Dst;
  }

  /** A link whose directories run through a link of the target is left dangling when that one is replaced. */
  lemma ThroughLinkNeedsSecondRun(sources: seq<Name>, targets: seq<Name>)
    requires Lists(Sample(THROUGH), OPTS.src, sources) && Lists(Sample(THROUGH), OPTS.dst, targets)
    ensures var (t', ok) := ApplyDiff(Sample(THROUGH), OPTS, Plan(Sample(THROUGH), OPTS, sources, targets));
            ok && Classify(Sample(THROUGH), OPTS, "a") == Unchanged && Classify(t', OPTS, "a") == Updated
  {
    var t := Sample(THROUGH);
    var d := Plan(t, OPTS, sources, targets);
    ThroughUpToDate();
    ThroughReplaced();
    DiffAt(t, OPTS, sources, targets, "d");
    hide Sample, Plan, Classify, Stale, ApplyDiff, FirstMet, ChangedPlaces, Canonical;
    SampleChanges(THROUGH, d, "d");
    SampleMeets(THROUGH, ChangedPlaces(t, OPTS, d), "d", [Down("a")], MAX_LINKS);
    SampleEntry(THROUGH, "a");
    hide THROUGH;
    assert !KeepsResolving(t, OPTS, d, "a");
    SecondRun(THROUGH, sources, targets, "a");
  }

  // The source entry n is a link through the stale target link b; the target link n is kept because n exists.
  const RELAYED := map[["src", "x"] := File, ["src", "n"] := Link(RealPath(["dst", "b"])),
                       ["dst", "b"] := Link(RealPath(["src", "x"])), ["dst", "n"] := Link(RealPath(["src", "n"]))]

  lemma RelayedExists()
    ensures Flat(RELAYED) && Exists(Sample(RELAYED), Child(OPTS.src, "n"))
    ensures Child(OPTS.src, "n") == RealPath(["src", "n"])
  {
    hide Walk, Sample;
    assert Names(["src", "n"]) == Names(["src"]) + [Down("n")];
    FullPath(["src", "n"]);
    FullPath(["dst", "b"]);
    FullPath(["src", "x"]);
    SampleLink(RELAYED, "src", "n", ["dst", "b"], [], MAX_LINKS);
    SampleLink(RELAYED, "dst", "b", ["src", "x"], [], MAX_LINKS - 1);
    SampleSource(RELAYED, "x", MAX_LINKS - 2);
  }

  lemma RelayedMeets(places: set<Real>)
    requires ["dst"] !in places && ["src"] !in places && ["src", "n"] !in places && ["dst", "b"] in places
    ensures Flat(RELAYED)
    ensures FirstOn(Sample(RELAYED), places, RealPath(["src", "n"])) == Some(Meeting(["dst", "b"], [], MAX_LINKS - 1))
  {
    hide FirstMet, Sample;
    FullPath(["src", "n"]);
    FullPath(["dst", "b"]);
    SampleMetLink(RELAYED, places, "src", "n", ["dst", "b"], [], MAX_LINKS);
    SampleMeets(RELAYED, places, "b", [], MAX_LINKS - 1);
  }

  // Following a link that is not itself met.
  lemma SampleMetLink(entries: map<Real, Node>, places: set<Real>, d: Name, n: Name, to: Real, rest: seq<Part>,
                      links: nat)
    requires Flat(entries) && (d == "src" || d == "dst") && links > 0 && [d] !in places && [d, n] !in places
    requires [d, n] in entries && entries[[d, n]] == Link(RealPath(to))
    ensures FirstMet(Sample(entries), places, [], Names([d, n]) + rest, links)
         == FirstMet(Sample(entries), places, [], Names(to) + rest, links - 1)
  {
    hide FirstMet;
    SampleAt(entries);
    SampleMet(entries, places, d, n, rest, links);
    FirstStep(Sample(entries), places, [d], n, rest, links);
    assert [d] + [n] == [d, n];
  }

  lemma SampleIsSource(entries: map<Real, Node>, n: Name)
    requires Flat(entries)
    ensures IsSource(Sample(entries), OPTS, n) <==> ["src", n] in entries && entries[["src", n]] == File
  {
    SampleReady(entries);
    SampleAt(entries);
    hide Sample, Ready, Entry;
  }

  lemma RelayedClasses()
    ensures Flat(RELAYED) && Stale(Sample(RELAYED), OPTS, "b") && !Stale(Sample(RELAYED), OPTS, "n")
    ensures !IsSource(Sample(RELAYED), OPTS, "b") && !IsSource(Sample(RELAYED), OPTS, "n")
    ensures Entry(Sample(RELAYED), OPTS.dst, "n") == Some(Link(RealPath(["src", "n"])))
    ensures IntoSource(OPTS, RealPath(["src", "n"]))
  {
    hide Sample, RealPath, Canonical, Entry, IsSource, IntoSource, OPTS;
    RelayedExists();
    SampleStale(RELAYED, "b", "x");
    SampleIsSource(RELAYED, "b");
    SampleIsSource(RELAYED, "n");
    SampleEntry(RELAYED, "n");
    IntoSources("n");
  }

  lemma IntoSources(n: Name)
    ensures IntoSource(OPTS, RealPath(["src", n]))
  {
    ParentOfReal(["src"], n);
    assert ["src"] + [n] == ["src", n];
  }

  // The changed places are entries of the target directory.
  lemma SampleUnchanged(entries: map<Real, Node>, d: UnitDiff, n: Name)
    requires Flat(entries)
    ensures var places := ChangedPlaces(Sample(entries), OPTS, d); ["src"] !in places && ["src", n] !in places
  {
    SampleReady(entries);
    ChangedPlacesAre(Sample(entries), OPTS, d, ["src"]);
    ChangedPlacesAre(Sample(entries), OPTS, d, ["src", n]);
    assert Parent(["src"]) == [] && Parent(["src", n]) == ["src"];
    hide ChangedPlaces, Sample, Ready;
  }

  /** A link kept for a source entry that resolves through a stale link dangles after the run, and is stale then. */
  lemma RelayedSourceNeedsSecondRun(sources: seq<Name>, targets: seq<Name>)
    requires Lists(Sample(RELAYED), OPTS.src, sources) && Lists(Sample(RELAYED), OPTS.dst, targets)
    ensures var d := Plan(Sample(RELAYED), OPTS, sources, targets);
            var (t', ok) := ApplyDiff(Sample(RELAYED), OPTS, d);
            ok && "n" !in d.removed && Stale(t', OPTS, "n")
  {
    hide RELAYED, Sample, Plan, ApplyDiff, FirstOn, ChangedPlaces, RealPath, Canonical, Entry, IntoSource;
    hide Stale, Classify;
    var t := Sample(RELAYED);
    var d := Plan(t, OPTS, sources, targets);
    RelayedExists();
    RelayedClasses();
    DiffAt(t, OPTS, sources, targets, "b");
    DiffAt(t, OPTS, sources, targets, "n");
    NotSkipped(t, OPTS, "b");
    NotSkipped(t, OPTS, "n");
    SampleChanges(RELAYED, d, "b");
    SampleUnchanged(RELAYED, d, "n");
    RelayedMeets(ChangedPlaces(t, OPTS, d));
    hide IsSource;
    assert Last(["dst", "b"]) == "b";
    assert Orphaned(t, OPTS, d, "n");
    SecondRun(RELAYED, sources, targets, "n");
  }
}
