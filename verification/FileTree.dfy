/** Files, directories and symbolic links, and how the system resolves a path. */
module FileTree {
  import opened Basics

  type Name = string

  datatype Part = Down(name: Name) | Up

  datatype Path = Path(abs: bool, parts: seq<Part>)

  // Where an entry really is: the names of the directories from the root, then its own.
  type Real = seq<Name>

  datatype Node = File | Directory | Link(to: Path)

  // The root is no entry; every other directory is.
  datatype Tree = Tree(cwd: Real, nodes: map<Real, Node>)

  // Kernel limit on links followed.
  const MAX_LINKS := 40

  function Parent(p: Real): Real {
    if p == [] then [] else p[..|p| - 1]
  }

  function Last(p: Real): Name {
    if p == [] then "" else p[|p| - 1]
  }

  function Base(at: Real, to: Path): Real {
    if to.abs then [] else at
  }

  function At(t: Tree, p: Real): Option<Node> {
    if p in t.nodes then Some(t.nodes[p]) else None
  }

  function Put(t: Tree, p: Real, node: Node): Tree {
    t.(nodes := t.nodes[p := node])
  }

  function Drop(t: Tree, p: Real): Tree {
    t.(nodes := t.nodes - {p})
  }

  lemma PutAndDrop(t: Tree, p: Real, node: Node)
    ensures Put(t, p, node).cwd == Drop(t, p).cwd == t.cwd
    ensures forall q :: At(Put(t, p, node), q) == if q == p then Some(node) else At(t, q)
    ensures forall q :: At(Drop(t, p), q) == if q == p then None else At(t, q)
  {
  }

  predicate IsDirectory(t: Tree, p: Real) {
    p == [] || At(t, p) == Some(Directory)
  }

  // Every entry is in a directory.
  ghost predicate WellFormed(t: Tree) {
    IsDirectory(t, t.cwd) && forall p :: p in t.nodes ==> p != [] && IsDirectory(t, Parent(p))
  }

  // Follow `rest` from the directory `at`, links included.
  function Walk(t: Tree, at: Real, rest: seq<Part>, links: nat): Option<Real>
    decreases links, |rest|
  {
    if rest == [] then Some(at)
    else if rest[0].Up? then Walk(t, Parent(at), rest[1..], links)
    else
      var p := at + [rest[0].name];
      match At(t, p)
      case None => None
      case Some(Directory) => Walk(t, p, rest[1..], links)
      case Some(File) => if |rest| == 1 then Some(p) else None
      case Some(Link(to)) => if links == 0 then None else Walk(t, Base(at, to), to.parts + rest[1..], links - 1)
  }

  function Canonical(t: Tree, p: Path): Option<Real> {
    Walk(t, Base(t.cwd, p), p.parts, MAX_LINKS)
  }

  predicate Exists(t: Tree, p: Path) {
    Canonical(t, p).Some?
  }

  function DirectoryAt(t: Tree, p: Path): Option<Real> {
    var r := Canonical(t, p);
    if r.Some? && IsDirectory(t, r.value) then r else None
  }

  // The entry `n` of a directory, itself not followed.
  function Entry(t: Tree, dir: Path, n: Name): Option<Node> {
    var d := DirectoryAt(t, dir);
    if d.None? then None else At(t, d.value + [n])
  }

  function Child(dir: Path, n: Name): Path {
    dir.(parts := dir.parts + [Down(n)])
  }

  // A link found in `dir`, as a path.
  function Join(dir: Path, to: Path): Path {
    if to.abs then to else dir.(parts := dir.parts + to.parts)
  }

  function Names(p: Real): seq<Part> {
    seq(|p|, i requires 0 <= i < |p| => Down(p[i]))
  }

  function RealPath(p: Real): Path {
    Path(true, Names(p))
  }

  // `create_dir_all`: make the missing directories of a path; what was made stays made on failure.
  function MakeDirs(t: Tree, p: Path): (Tree, bool)
    decreases |p.parts|
  {
    if DirectoryAt(t, p).Some? then (t, true)
    else if p.parts == [] then (t, false)
    else
      var (made, ok) := MakeDirs(t, p.(parts := p.parts[..|p.parts| - 1]));
      if !ok || DirectoryAt(made, p).Some? then (made, ok) else MakeLast(made, p)
  }

  // Make the last directory of a path in the one before it.
  function MakeLast(t: Tree, p: Path): (Tree, bool)
    requires p.parts != []
  {
    var n := |p.parts| - 1;
    var d := DirectoryAt(t, p.(parts := p.parts[..n]));
    if p.parts[n].Up? || d.None? || At(t, d.value + [p.parts[n].name]).Some? then (t, false)
    else (Put(t, d.value + [p.parts[n].name], Directory), true)
  }

  // ----- real paths lead where they say -----

  lemma {:induction false} PrefixIsDirectory(t: Tree, p: Real, i: nat)
    requires WellFormed(t) && At(t, p).Some? && i < |p|
    ensures IsDirectory(t, p[..i])
    decreases |p|
  {
    if i < |p| - 1 {
      PrefixIsDirectory(t, Parent(p), i);
      assert Parent(p)[..i] == p[..i];
    }
  }

  lemma NamesSplit(p: Real, i: nat)
    requires i < |p|
    ensures Names(p)[i..] == [Down(p[i])] + Names(p)[i + 1..] && p[..i + 1] == p[..i] + [p[i]]
  {
  }

  // Walking down real directories.
  lemma {:induction false} WalkDown(t: Tree, p: Real, i: nat, rest: seq<Part>, links: nat)
    requires i <= |p| && forall k :: i < k <= |p| ==> IsDirectory(t, p[..k])
    ensures Walk(t, p[..i], Names(p)[i..] + rest, links) == Walk(t, p, rest, links)
    decreases |p| - i
  {
    if i == |p| {
      assert Names(p)[i..] + rest == rest && p[..i] == p;
    } else {
      NamesSplit(p, i);
      var parts := Names(p)[i..] + rest;
      assert parts[1..] == Names(p)[i + 1..] + rest;
      WalkDown(t, p, i + 1, rest, links);
    }
  }

  // The first step of a walk.
  lemma StepFrom(t: Tree, dir: Real, n: Name, rest: seq<Part>, links: nat)
    ensures Walk(t, dir, [Down(n)] + rest, links)
         == match At(t, dir + [n])
            case None => None
            case Some(Directory) => Walk(t, dir + [n], rest, links)
            case Some(File) => if rest == [] then Some(dir + [n]) else None
            case Some(Link(to)) => if links == 0 then None else Walk(t, Base(dir, to), to.parts + rest, links - 1)
  {
    assert ([Down(n)] + rest)[1..] == rest;
  }

  lemma StepUp(t: Tree, dir: Real, rest: seq<Part>, links: nat)
    ensures Walk(t, dir, [Up] + rest, links) == Walk(t, Parent(dir), rest, links)
  {
    assert ([Up] + rest)[1..] == rest;
  }

  lemma StepNowhere(t: Tree, dir: Real, links: nat)
    ensures Walk(t, dir, [], links) == Some(dir)
  {
  }

  // The last step of a real path.
  lemma WalkToEntry(t: Tree, p: Real, rest: seq<Part>, links: nat)
    requires WellFormed(t) && At(t, p).Some?
    ensures Walk(t, [], Names(p) + rest, links) == Walk(t, Parent(p), [Down(Last(p))] + rest, links)
  {
    hide Walk;
    NotTheRoot(t, p);
    var dir := Parent(p);
    forall k | 0 < k <= |dir|
      ensures IsDirectory(t, dir[..k])
    {
      PrefixIsDirectory(t, p, k);
      assert dir[..k] == p[..k];
    }
    hide WellFormed, IsDirectory;
    LastOfNames(p);
    ConcatAssoc(Names(dir), [Down(Last(p))], rest);
    WalkDown(t, dir, 0, [Down(Last(p))] + rest, links);
  }

  lemma LastOfNames(p: Real)
    requires p != []
    ensures var dir := Parent(p);
            Names(p) == Names(dir) + [Down(Last(p))] && dir[..0] == [] && Names(dir)[0..] == Names(dir)
  {
  }

  // A real path to a file leads to it, and nowhere beyond it.
  lemma RealFile(t: Tree, p: Real, rest: seq<Part>, links: nat)
    requires WellFormed(t) && At(t, p) == Some(File)
    ensures Walk(t, [], Names(p) + rest, links) == if rest == [] then Some(p) else None
  {
    hide Walk, WellFormed;
    WalkToEntry(t, p, rest, links);
    NotTheRoot(t, p);
    EntryOf(p);
    StepFrom(t, Parent(p), Last(p), rest, links);
  }

  lemma EntryOf(p: Real)
    requires p != []
    ensures Parent(p) + [Last(p)] == p
  {
  }

  lemma NotTheRoot(t: Tree, p: Real)
    requires WellFormed(t) && At(t, p).Some?
    ensures p != []
  {
  }

  // A link to its own real path is a loop.
  lemma {:induction false} SelfLinkLoops(t: Tree, p: Real, links: nat)
    requires WellFormed(t) && At(t, p) == Some(Link(RealPath(p)))
    ensures Walk(t, Parent(p), [Down(Last(p))] + [], links) == None
    decreases links
  {
    hide Walk, WellFormed, Names;
    NotTheRoot(t, p);
    EntryOf(p);
    StepFrom(t, Parent(p), Last(p), [], links);
    if links > 0 {
      SelfLinkLoops(t, p, links - 1);
      WalkToEntry(t, p, [], links - 1);
    }
  }

  // ----- one step further -----

  lemma ParentIsDirectory(t: Tree, p: Real)
    requires WellFormed(t) && IsDirectory(t, p)
    ensures IsDirectory(t, Parent(p))
  {
  }

  // How many links a walk that succeeds leaves to follow.
  ghost function LinksLeft(t: Tree, at: Real, rest: seq<Part>, links: nat): nat
    decreases links, |rest|
  {
    if rest == [] then links
    else if rest[0].Up? then LinksLeft(t, Parent(at), rest[1..], links)
    else
      var p := at + [rest[0].name];
      match At(t, p)
      case Some(Directory) => LinksLeft(t, p, rest[1..], links)
      case Some(Link(to)) => if links == 0 then 0 else LinksLeft(t, Base(at, to), to.parts + rest[1..], links - 1)
      case _ => links
  }

  // Further steps, from where a walk ends.
  lemma {:induction false} WalkFurther(t: Tree, at: Real, rest: seq<Part>, links: nat, more: seq<Part>)
    requires WellFormed(t) && IsDirectory(t, at) && more != []
    ensures var d := Walk(t, at, rest, links);
            Walk(t, at, rest + more, links)
            == if d.None? || !IsDirectory(t, d.value) then None
               else Walk(t, d.value, more, LinksLeft(t, at, rest, links))
    decreases links, |rest|
  {
    hide Walk, WellFormed;
    if rest == [] {
      assert rest + more == more;
      StepNowhere(t, at, links);
    } else {
      var tail := rest[1..];
      assert rest == [rest[0]] + tail && rest + more == [rest[0]] + (tail + more);
      if rest[0].Up? {
        ParentIsDirectory(t, at);
        StepUp(t, at, tail, links);
        StepUp(t, at, tail + more, links);
        WalkFurther(t, Parent(at), tail, links, more);
      } else {
        StepFrom(t, at, rest[0].name, tail, links);
        StepFrom(t, at, rest[0].name, tail + more, links);
        var p := at + [rest[0].name];
        match At(t, p)
        case None =>
        case Some(File) => FileIsNoDirectory(t, p);
        case Some(Directory) => WalkFurther(t, p, tail, links, more);
        case Some(Link(to)) =>
          if links > 0 {
            ConcatAssoc(to.parts, tail, more);
            WalkFurther(t, Base(at, to), to.parts + tail, links - 1, more);
          }
      }
    }
  }

  lemma FileIsNoDirectory(t: Tree, p: Real)
    requires WellFormed(t) && At(t, p) == Some(File)
    ensures !IsDirectory(t, p)
  {
  }

  // What is found under a directory's path.
  lemma CanonicalChild(t: Tree, dir: Path, n: Name)
    requires WellFormed(t)
    ensures var d, e, r := DirectoryAt(t, dir), Entry(t, dir, n), Canonical(t, Child(dir, n));
            && (e.None? ==> r.None?)
            && (e == Some(File) || e == Some(Directory) ==> r == Some(d.value + [n]))
            && (d.Some? ==> r == Walk(t, d.value, [Down(n)], LinksLeft(t, Base(t.cwd, dir), dir.parts, MAX_LINKS)))
  {
    hide Walk, WellFormed;
    var left := LinksLeft(t, Base(t.cwd, dir), dir.parts, MAX_LINKS);
    BaseIsDirectory(t, dir);
    WalkFurther(t, Base(t.cwd, dir), dir.parts, MAX_LINKS, [Down(n)]);
    var d := DirectoryAt(t, dir);
    if d.Some? {
      StepFrom(t, d.value, n, [], left);
      StepNowhere(t, d.value + [n], left);
      assert [Down(n)] + [] == [Down(n)];
    }
  }

  /** Two dots lead from a directory to the one it is in, and from the root to the root. */
  lemma CanonicalParent(t: Tree, dir: Path)
    requires WellFormed(t)
    ensures var d := DirectoryAt(t, dir);
            Canonical(t, dir.(parts := dir.parts + [Up]))
            == if d.None? then None else Some(if d.value == [] then [] else d.value[..|d.value| - 1])
  {
    hide Walk, WellFormed;
    var left := LinksLeft(t, Base(t.cwd, dir), dir.parts, MAX_LINKS);
    BaseIsDirectory(t, dir);
    WalkFurther(t, Base(t.cwd, dir), dir.parts, MAX_LINKS, [Up]);
    var d := DirectoryAt(t, dir);
    if d.Some? {
      assert [Up] + [] == [Up];
      StepUp(t, d.value, [], left);
      StepNowhere(t, Parent(d.value), left);
    }
  }

  /** A link to its own name leads nowhere. */
  lemma LoopLeadsNowhere(t: Tree, dir: Path, n: Name)
    requires WellFormed(t) && Entry(t, dir, n) == Some(Link(Path(false, [Down(n)])))
    ensures Canonical(t, Child(dir, n)) == None
  {
    hide Walk, WellFormed;
    CanonicalChild(t, dir, n);
    LoopEnds(t, DirectoryAt(t, dir).value, n, LinksLeft(t, Base(t.cwd, dir), dir.parts, MAX_LINKS));
  }

  lemma {:induction false} LoopEnds(t: Tree, d: Real, n: Name, links: nat)
    requires At(t, d + [n]) == Some(Link(Path(false, [Down(n)])))
    ensures Walk(t, d, [Down(n)], links) == None
    decreases links
  {
    if links > 0 {
      LoopEnds(t, d, n, links - 1);
      assert [Down(n)] + [Down(n)][1..] == [Down(n)];
    }
  }

  lemma BaseIsDirectory(t: Tree, p: Path)
    requires WellFormed(t)
    ensures IsDirectory(t, Base(t.cwd, p))
  {
  }

  // With more links to spare a walk ends where it did.
  lemma {:induction false} MoreLinks(t: Tree, at: Real, rest: seq<Part>, links: nat, more: nat)
    requires links <= more && Walk(t, at, rest, links).Some?
    ensures Walk(t, at, rest, more) == Walk(t, at, rest, links)
    decreases links, |rest|
  {
    if rest != [] {
      if rest[0].Up? {
        MoreLinks(t, Parent(at), rest[1..], links, more);
      } else {
        var p := at + [rest[0].name];
        match At(t, p)
        case Some(Directory) => MoreLinks(t, p, rest[1..], links, more);
        case Some(Link(to)) => MoreLinks(t, Base(at, to), to.parts + rest[1..], links - 1, more - 1);
        case _ =>
      }
    }
  }

  lemma {:induction false} LinksLeftAtMost(t: Tree, at: Real, rest: seq<Part>, links: nat)
    ensures LinksLeft(t, at, rest, links) <= links
    decreases links, |rest|
  {
    if rest != [] {
      if rest[0].Up? {
        LinksLeftAtMost(t, Parent(at), rest[1..], links);
      } else {
        var p := at + [rest[0].name];
        match At(t, p)
        case Some(Directory) => LinksLeftAtMost(t, p, rest[1..], links);
        case Some(Link(to)) =>
          if links > 0 {
            LinksLeftAtMost(t, Base(at, to), to.parts + rest[1..], links - 1);
          }
        case _ =>
      }
    }
  }

  /** A link that resolves, read and joined to the path of its directory, resolves to the same. */
  lemma JoinFollowsLink(t: Tree, dir: Path, n: Name, to: Path)
    requires WellFormed(t) && Entry(t, dir, n) == Some(Link(to)) && to.parts != [] && Exists(t, Child(dir, n))
    ensures Canonical(t, Join(dir, to)) == Canonical(t, Child(dir, n))
  {
    hide Walk, WellFormed, LinksLeft;
    var start, d := Base(t.cwd, dir), DirectoryAt(t, dir).value;
    var left := LinksLeft(t, start, dir.parts, MAX_LINKS);
    CanonicalChild(t, dir, n);
    LinksLeftAtMost(t, start, dir.parts, MAX_LINKS);
    StepFrom(t, d, n, [], left);
    assert [Down(n)] + [] == [Down(n)] && to.parts + [] == to.parts;
    if to.abs {
      MoreLinks(t, [], to.parts, left - 1, MAX_LINKS);
    } else {
      MoreLinks(t, d, to.parts, left - 1, left);
      BaseIsDirectory(t, dir);
      WalkFurther(t, start, dir.parts, MAX_LINKS, to.parts);
    }
  }

  // ----- walks through a tree that changes -----

  // Where a walk first meets one of some places, what is left to walk, and how many links.
  datatype Meeting = Meeting(at: Real, rest: seq<Part>, links: nat)

  function FirstMet(t: Tree, places: set<Real>, at: Real, rest: seq<Part>, links: nat): Option<Meeting>
    decreases links, |rest|
  {
    if rest == [] then None
    else if rest[0].Up? then FirstMet(t, places, Parent(at), rest[1..], links)
    else
      var p := at + [rest[0].name];
      if p in places then Some(Meeting(p, rest[1..], links))
      else
        match At(t, p)
        case Some(Directory) => FirstMet(t, places, p, rest[1..], links)
        case Some(Link(to)) =>
          if links == 0 then None else FirstMet(t, places, Base(at, to), to.parts + rest[1..], links - 1)
        case _ => None
  }

  function FirstOn(t: Tree, places: set<Real>, p: Path): Option<Meeting> {
    FirstMet(t, places, Base(t.cwd, p), p.parts, MAX_LINKS)
  }

  lemma FirstStep(t: Tree, places: set<Real>, dir: Real, n: Name, rest: seq<Part>, links: nat)
    ensures FirstMet(t, places, dir, [Down(n)] + rest, links)
         == if dir + [n] in places then Some(Meeting(dir + [n], rest, links))
            else
              match At(t, dir + [n])
              case Some(Directory) => FirstMet(t, places, dir + [n], rest, links)
              case Some(Link(to)) => if links == 0 then None
                                     else FirstMet(t, places, Base(dir, to), to.parts + rest, links - 1)
              case _ => None
  {
    assert ([Down(n)] + rest)[1..] == rest;
  }

  lemma MeetsNothing(t: Tree, places: set<Real>, dir: Real, links: nat)
    ensures FirstMet(t, places, dir, [], links).None?
  {
  }

  ghost predicate SameOutside(t: Tree, t': Tree, places: set<Real>) {
    t'.cwd == t.cwd && forall p :: p !in places ==> At(t', p) == At(t, p)
  }

  /** In the changed tree a walk goes as before up to the first changed place, and on from there. */
  lemma {:induction false} WalkFromFirst(t: Tree, t': Tree, places: set<Real>, at: Real, rest: seq<Part>, links: nat)
    requires SameOutside(t, t', places)
    ensures var m := FirstMet(t, places, at, rest, links);
            && (m.None? ==> Walk(t', at, rest, links) == Walk(t, at, rest, links))
            && (m.Some? ==> m.value.at in places && m.value.at != []
                            && Walk(t', at, rest, links)
                               == Walk(t', Parent(m.value.at), [Down(Last(m.value.at))] + m.value.rest, m.value.links))
    decreases links, |rest|
  {
    if rest != [] {
      if rest[0].Up? {
        WalkFromFirst(t, t', places, Parent(at), rest[1..], links);
      } else {
        var p := at + [rest[0].name];
        if p in places {
          assert Parent(p) == at && [Down(Last(p))] + rest[1..] == rest;
        } else {
          assert At(t', p) == At(t, p);
          match At(t, p)
          case Some(Directory) => WalkFromFirst(t, t', places, p, rest[1..], links);
          case Some(Link(to)) =>
            if links > 0 {
              WalkFromFirst(t, t', places, Base(at, to), to.parts + rest[1..], links - 1);
            }
          case _ =>
        }
      }
    }
  }

  lemma {:induction false} NothingMet(t: Tree, at: Real, rest: seq<Part>, links: nat)
    ensures FirstMet(t, {}, at, rest, links).None?
    decreases links, |rest|
  {
    if rest != [] {
      if rest[0].Up? {
        NothingMet(t, Parent(at), rest[1..], links);
      } else {
        var p := at + [rest[0].name];
        match At(t, p)
        case Some(Directory) => NothingMet(t, p, rest[1..], links);
        case Some(Link(to)) =>
          if links > 0 {
            NothingMet(t, Base(at, to), to.parts + rest[1..], links - 1);
          }
        case _ =>
      }
    }
  }

  // A walk that ends at a directory passes by places that are no directories, if it follows no link there.
  lemma {:induction false} OnlyLinksMatter(t: Tree, places: set<Real>, links': set<Real>,
                                           at: Real, rest: seq<Part>, links: nat)
    requires forall p :: p in places ==> p in links' || At(t, p) == None || At(t, p) == Some(File)
    requires FirstMet(t, links', at, rest, links).None?
    requires Walk(t, at, rest, links).Some? && IsDirectory(t, Walk(t, at, rest, links).value)
    ensures FirstMet(t, places, at, rest, links).None?
    decreases links, |rest|
  {
    if rest != [] {
      if rest[0].Up? {
        OnlyLinksMatter(t, places, links', Parent(at), rest[1..], links);
      } else {
        var p := at + [rest[0].name];
        match At(t, p)
        case Some(Directory) => OnlyLinksMatter(t, places, links', p, rest[1..], links);
        case Some(Link(to)) => OnlyLinksMatter(t, places, links', Base(at, to), to.parts + rest[1..], links - 1);
        case _ =>
      }
    }
  }

  // ----- making directories -----

  // Nothing is lost, and what is new is directories.
  ghost predicate Grown(t: Tree, t': Tree) {
    t'.cwd == t.cwd && forall p :: At(t', p) == At(t, p) || (At(t, p) == None && At(t', p) == Some(Directory))
  }

  lemma {:induction false} GrownWalk(t: Tree, t': Tree, at: Real, rest: seq<Part>, links: nat)
    requires Grown(t, t') && Walk(t, at, rest, links).Some?
    ensures Walk(t', at, rest, links) == Walk(t, at, rest, links)
    decreases links, |rest|
  {
    if rest != [] {
      if rest[0].Up? {
        GrownWalk(t, t', Parent(at), rest[1..], links);
      } else {
        var p := at + [rest[0].name];
        assert At(t', p) == At(t, p);
        match At(t, p)
        case Some(Directory) => GrownWalk(t, t', p, rest[1..], links);
        case Some(Link(to)) => GrownWalk(t, t', Base(at, to), to.parts + rest[1..], links - 1);
        case _ =>
      }
    }
  }

  lemma GrownDirectory(t: Tree, t': Tree, p: Path)
    requires Grown(t, t') && DirectoryAt(t, p).Some?
    ensures DirectoryAt(t', p) == DirectoryAt(t, p)
  {
    GrownWalk(t, t', Base(t.cwd, p), p.parts, MAX_LINKS);
    var d := DirectoryAt(t, p).value;
    assert At(t', d) == At(t, d) || At(t, d) == None;
  }

  ghost predicate NoUp(p: Path) {
    forall i :: 0 <= i < |p.parts| ==> p.parts[i].Down?
  }

  // A directory that was not there and has nothing in it.
  ghost predicate New(t: Tree, made: Tree, d: Real) {
    d != [] && At(t, d) == None && forall n :: At(made, d + [n]) == None
  }

  /** Making directories loses nothing; a new directory at the end of a path without `..` is empty. */
  lemma {:induction false} MakingGrows(t: Tree, p: Path)
    requires WellFormed(t)
    ensures var (made, ok) := MakeDirs(t, p);
            && Grown(t, made) && WellFormed(made)
            && (ok ==> DirectoryAt(made, p).Some?)
            && (ok && DirectoryAt(t, p).None? && NoUp(p) ==> New(t, made, DirectoryAt(made, p).value))
    decreases |p.parts|
  {
    if DirectoryAt(t, p).None? && p.parts != [] {
      var n := |p.parts| - 1;
      var parent := p.(parts := p.parts[..n]);
      MakingGrows(t, parent);
      var (made, ok) := MakeDirs(t, parent);
      assert NoUp(p) ==> NoUp(parent);
      assert MakeDirs(t, p) == if !ok || DirectoryAt(made, p).Some? then (made, ok) else MakeLast(made, p);
      hide MakeDirs, DirectoryAt, WellFormed, NoUp, MakeLast, New;
      if ok && DirectoryAt(t, parent).None? && NoUp(p) {
        NothingInNew(t, made, p);
      }
      if ok && DirectoryAt(made, p).None? {
        MakeLastGrows(made, p);
        if MakeLast(made, p).1 {
          var d := DirectoryAt(MakeLast(made, p).0, p).value;
          assert At(t, d) == None;
        }
      }
    }
  }

  function Prefix(p: Path, k: nat): Path
    requires k <= |p.parts|
  {
    p.(parts := p.parts[..k])
  }

  // The longest part of the path that is a directory is all of it, or nothing has the next name there.
  ghost predicate CanMake(t: Tree, p: Path) {
    exists k: nat :: CanMakeFrom(t, p, k)
  }

  ghost predicate CanMakeFrom(t: Tree, p: Path, k: nat) {
    && k <= |p.parts| && DirectoryAt(t, Prefix(p, k)).Some?
    && (k == |p.parts| || (p.parts[k].Down? && Entry(t, Prefix(p, k), p.parts[k].name) == None))
  }

  // Names k to j of a path without `..`.
  function NamesFrom(p: Path, k: nat, j: nat): Real
    requires k <= j <= |p.parts| && NoUp(p)
  {
    seq(j - k, i requires 0 <= i < j - k => p.parts[k + i].name)
  }

  lemma PrefixChild(p: Path, k: nat)
    requires k < |p.parts| && p.parts[k].Down?
    ensures Prefix(p, k + 1) == Child(Prefix(p, k), p.parts[k].name)
  {
    assert p.parts[..k + 1] == p.parts[..k] + [p.parts[k]];
  }

  // Beyond a missing entry nothing is a directory.
  lemma {:induction false} NothingBeyond(t: Tree, p: Path, k: nat, n: nat)
    requires WellFormed(t) && NoUp(p) && k < n <= |p.parts| && Entry(t, Prefix(p, k), p.parts[k].name) == None
    ensures DirectoryAt(t, Prefix(p, n)).None?
    decreases n
  {
    hide Canonical, Entry, WellFormed;
    PrefixChild(p, n - 1);
    CanonicalChild(t, Prefix(p, n - 1), p.parts[n - 1].name);
    if k < n - 1 {
      NothingBeyond(t, p, k, n - 1);
      assert Entry(t, Prefix(p, n - 1), p.parts[n - 1].name) == None by {
        NoEntryWithout(t, Prefix(p, n - 1), p.parts[n - 1].name);
      }
    }
  }

  lemma NoEntryWithout(t: Tree, dir: Path, n: Name)
    requires DirectoryAt(t, dir).None?
    ensures Entry(t, dir, n) == None
  {
  }

  /** Making the directories of a path without `..` succeeds exactly when nothing but directories is on the way. */
  lemma {:induction false} MakingSucceedsIff(t: Tree, p: Path)
    requires WellFormed(t) && NoUp(p)
    ensures MakeDirs(t, p).1 <==> CanMake(t, p)
    decreases |p.parts|
  {
    hide Canonical, WellFormed, NoUp;
    assert Prefix(p, |p.parts|) == p;
    if DirectoryAt(t, p).Some? {
      assert CanMakeFrom(t, p, |p.parts|);
    } else if p.parts == [] {
      StartIsDirectory(t, p);
      assert false;
    } else {
      var n := |p.parts| - 1;
      var parent := Prefix(p, n);
      ParentHasNoUp(p);
      MakingSucceedsIff(t, parent);
      MakingGrows(t, parent);
      CanMakeAlso(t, p);
      var (made, ok) := MakeDirs(t, parent);
      if ok && DirectoryAt(t, parent).None? {
        NothingInNew(t, made, p);
        LastIsFree(made, p);
      }
      hide CanMakeFrom;
    }
  }

  lemma ParentHasNoUp(p: Path)
    requires NoUp(p) && p.parts != []
    ensures NoUp(Prefix(p, |p.parts| - 1)) && p.parts[|p.parts| - 1].Down?
  {
  }

  lemma StartIsDirectory(t: Tree, p: Path)
    requires WellFormed(t) && p.parts == []
    ensures DirectoryAt(t, p).Some?
  {
  }

  // In a new directory there is room for the last one.
  lemma LastIsFree(t: Tree, p: Path)
    requires NoUp(p) && p.parts != [] && DirectoryAt(t, Prefix(p, |p.parts| - 1)).Some?
    requires At(t, DirectoryAt(t, Prefix(p, |p.parts| - 1)).value + [p.parts[|p.parts| - 1].name]) == None
    ensures MakeLast(t, p).1
  {
  }

  // A path that is no directory can be made where its parent can and, if that is there, has no such entry.
  lemma CanMakeAlso(t: Tree, p: Path)
    requires WellFormed(t) && NoUp(p) && p.parts != [] && DirectoryAt(t, p).None?
    ensures var parent := Prefix(p, |p.parts| - 1);
            CanMake(t, p)
            <==> if DirectoryAt(t, parent).Some? then Entry(t, parent, p.parts[|p.parts| - 1].name) == None
                 else CanMake(t, parent)
  {
    hide Canonical, WellFormed, Entry;
    var n := |p.parts| - 1;
    var parent := Prefix(p, n);
    assert Prefix(p, n + 1) == p;
    forall k: nat | k < n
      ensures Prefix(parent, k) == Prefix(p, k) && parent.parts[k] == p.parts[k]
    {
    }
    assert Prefix(parent, n) == parent;
    if DirectoryAt(t, parent).Some? {
      if k: nat :| CanMakeFrom(t, p, k) && k < n {
        NothingBeyond(t, p, k, n);
        assert false;
      }
      assert Entry(t, parent, p.parts[n].name) == None ==> CanMakeFrom(t, p, n);
    } else {
      if k: nat :| CanMakeFrom(t, p, k) {
        assert CanMakeFrom(t, parent, k);
      }
      if k: nat :| CanMakeFrom(t, parent, k) {
        assert CanMakeFrom(t, p, k);
      }
    }
  }

  // The directory `q` is made on the way from the first k parts of the path to its end.
  ghost predicate OnTheWay(p: Path, k: nat, d: Real, q: Real)
    requires NoUp(p)
  {
    exists j :: k < j <= |p.parts| && q == d + NamesFrom(p, k, j)
  }

  /** What is made is the directories named by the rest of the path, each in the one before, and nothing else. */
  lemma {:induction false} MakesExactly(t: Tree, p: Path, k: nat)
    requires WellFormed(t) && NoUp(p) && CanMakeFrom(t, p, k)
    ensures var made, d := MakeDirs(t, p).0, DirectoryAt(t, Prefix(p, k)).value;
            && made.cwd == t.cwd
            && (forall q :: At(made, q) == if OnTheWay(p, k, d, q) then Some(Directory) else At(t, q))
            && DirectoryAt(made, p) == Some(d + NamesFrom(p, k, |p.parts|))
    decreases |p.parts|
  {
    hide Canonical, WellFormed, Entry, At;
    var n, d := |p.parts|, DirectoryAt(t, Prefix(p, k)).value;
    assert Prefix(p, n) == p;
    if k == n {
      assert d + NamesFrom(p, k, n) == d;
      assert MakeDirs(t, p) == (t, true);
    } else {
      NothingBeyond(t, p, k, n);
      var parent := Prefix(p, n - 1);
      ParentHasNoUp(p);
      PrefixOfParent(p, k);
      MakesExactly(t, parent, k);
      MakingGrows(t, parent);
      assert CanMake(t, parent) && CanMake(t, p);
      MakingSucceedsIff(t, parent);
      MakingSucceedsIff(t, p);
      hide CanMake, CanMakeFrom, NoUp, MakeDirs;
      var made, at := MakeDirs(t, parent).0, d + NamesFrom(parent, k, n - 1);
      LastMade(t, p, made, at);
      hide DirectoryAt;
      OneMoreMade(p, k, d, made, at);
    }
  }

  // Putting the last directory in place of a way of directories completes the way.
  lemma OneMoreMade(p: Path, k: nat, d: Real, made: Tree, at: Real)
    requires k < |p.parts| && NoUp(p)
    requires NoUp(Prefix(p, |p.parts| - 1)) && at == d + NamesFrom(Prefix(p, |p.parts| - 1), k, |p.parts| - 1)
    ensures var parent, last := Prefix(p, |p.parts| - 1), at + [p.parts[|p.parts| - 1].name];
            && last == d + NamesFrom(p, k, |p.parts|)
            && Put(made, last, Directory).cwd == made.cwd
            && forall q :: && At(Put(made, last, Directory), q) == (if q == last then Some(Directory) else At(made, q))
                           && (OnTheWay(p, k, d, q) <==> OnTheWay(parent, k, d, q) || q == last)
  {
    var n := |p.parts|;
    var parent, name := Prefix(p, n - 1), p.parts[n - 1].name;
    hide At;
    PutAndDrop(made, at + [name], Directory);
    assert at + [name] == d + NamesFrom(p, k, n) by {
      assert NamesFrom(p, k, n) == NamesFrom(parent, k, n - 1) + [name];
      ConcatAssoc(d, NamesFrom(parent, k, n - 1), [name]);
    }
    hide NamesFrom;
    forall q
      ensures OnTheWay(p, k, d, q) <==> OnTheWay(parent, k, d, q) || q == at + [name]
    {
      OneMoreOnTheWay(p, k, d, q);
    }
  }

  // A directory made at last is put into the one before.
  lemma LastMade(t: Tree, p: Path, made: Tree, at: Real)
    requires p.parts != [] && NoUp(p) && MakeDirs(t, p).1 && DirectoryAt(t, p).None?
    requires MakeDirs(t, Prefix(p, |p.parts| - 1)) == (made, true) && WellFormed(made)
    requires DirectoryAt(made, Prefix(p, |p.parts| - 1)) == Some(at)
    requires DirectoryAt(t, Prefix(p, |p.parts| - 1)).None? ==> New(t, made, at)
    ensures var name := p.parts[|p.parts| - 1].name;
            && MakeDirs(t, p).0 == Put(made, at + [name], Directory)
            && DirectoryAt(MakeDirs(t, p).0, p) == Some(at + [name])
  {
    hide Canonical, WellFormed, At;
    var n := |p.parts|;
    var parent := Prefix(p, n - 1);
    PrefixChild(p, n - 1);
    assert Prefix(p, n) == p;
    if DirectoryAt(t, parent).None? {
      NothingInNew(t, made, p);
    }
    assert DirectoryAt(made, p).None?;
    assert MakeDirs(t, p) == MakeLast(made, p);
    NewDirectory(made, parent, p.parts[n - 1].name);
  }

  lemma PrefixOfParent(p: Path, k: nat)
    requires k < |p.parts|
    ensures var parent := Prefix(p, |p.parts| - 1);
            Prefix(parent, k) == Prefix(p, k) && (k < |parent.parts| ==> parent.parts[k] == p.parts[k])
  {
  }

  lemma OneMoreOnTheWay(p: Path, k: nat, d: Real, q: Real)
    requires NoUp(p) && k < |p.parts| && NoUp(Prefix(p, |p.parts| - 1))
    ensures OnTheWay(p, k, d, q)
       <==> OnTheWay(Prefix(p, |p.parts| - 1), k, d, q) || q == d + NamesFrom(p, k, |p.parts|)
  {
    var n, parent := |p.parts|, Prefix(p, |p.parts| - 1);
    if j :| k < j <= n && q == d + NamesFrom(p, k, j) {
      if j < n {
        assert NamesFrom(parent, k, j) == NamesFrom(p, k, j);
        assert q == d + NamesFrom(parent, k, j);
      }
    }
    if j :| k < j <= n - 1 && q == d + NamesFrom(parent, k, j) {
      assert NamesFrom(parent, k, j) == NamesFrom(p, k, j);
      assert q == d + NamesFrom(p, k, j);
    }
  }

  // A path through a new directory leads to nothing yet.
  lemma NothingInNew(t: Tree, made: Tree, p: Path)
    requires WellFormed(made) && p.parts != [] && NoUp(p)
    requires var parent := p.(parts := p.parts[..|p.parts| - 1]);
             DirectoryAt(made, parent).Some? && New(t, made, DirectoryAt(made, parent).value)
    ensures DirectoryAt(made, p).None?
  {
    var n := |p.parts| - 1;
    assert p.parts == p.parts[..n] + [p.parts[n]];
    CanonicalChild(made, p.(parts := p.parts[..n]), p.parts[n].name);
  }

  lemma MakeLastGrows(t: Tree, p: Path)
    requires WellFormed(t) && p.parts != [] && DirectoryAt(t, p.(parts := p.parts[..|p.parts| - 1])).Some?
    ensures var (made, ok) := MakeLast(t, p);
            && Grown(t, made) && WellFormed(made)
            && (ok ==> DirectoryAt(made, p).Some? && New(t, made, DirectoryAt(made, p).value))
  {
    if MakeLast(t, p).1 {
      var n := |p.parts| - 1;
      assert p.parts == p.parts[..n] + [p.parts[n]];
      NewDirectory(t, p.(parts := p.parts[..n]), p.parts[n].name);
    }
  }

  lemma NewDirectory(t: Tree, dir: Path, n: Name)
    requires WellFormed(t) && DirectoryAt(t, dir).Some?
    requires At(t, DirectoryAt(t, dir).value + [n]) == None
    ensures var d := DirectoryAt(t, dir).value;
            var t' := Put(t, d + [n], Directory);
            && Grown(t, t') && WellFormed(t') && DirectoryAt(t', Child(dir, n)) == Some(d + [n])
            && New(t, t', d + [n])
  {
    var d := DirectoryAt(t, dir).value;
    var t' := Put(t, d + [n], Directory);
    assert Parent(d + [n]) == d;
    forall k
      ensures At(t', d + [n] + [k]) == None
    {
      assert Parent(d + [n] + [k]) == d + [n];
    }
    GrownDirectory(t, t', dir);
    CanonicalChild(t', dir, n);
  }
}
