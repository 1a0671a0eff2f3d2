/**
 The Sparkplane installer: every file-system operation is a step, any number of installers
 run interleaved, and each may crash between any two steps.
 */
module SparkplaneInstall {
  import opened Basics
  import opened ReleasePin

  // The data root: whether releases/ exists, its sub-directories with their files, and the links in
  // the root, each by the releases/ entry it points at.
  datatype Fs = Fs(releases: bool, dirs: map<string, map<string, Bytes>>, links: map<string, string>)

  const BINARY := "sparkplane"
  const SUMS := "SHA256SUMS"
  const SIGNATURE := "SHA256SUMS.minisig"
  const RECEIPT := "release.json"
  const CURRENT := "current"
  const STAGE_PREFIX := ".stage-"
  const UUID_LENGTH := 36

  // What one installer was asked to install, and the two fresh names it drew.
  datatype Job = Job(pin: Pin, manifest: Bytes, signature: string, binary: Bytes, stage: string, link: string)

  datatype Phase =
    | Begin | Mkdir | Look | Compare | Stage | Write(k: nat) | Protocol | Publish | Recheck | Link | Swap | Done

  datatype Proc = Proc(job: Job, phase: Phase)

  predicate StageName(d: string) {
    |d| == |STAGE_PREFIX| + UUID_LENGTH && d[..|STAGE_PREFIX|] == STAGE_PREFIX
  }

  // The files of a release in the order they are written.
  function FileName(k: nat): string {
    if k == 0 then BINARY else if k == 1 then SUMS else if k == 2 then SIGNATURE else RECEIPT
  }

  function FileContent(t: Trust, j: Job, k: nat): Bytes {
    if k == 0 then j.binary
    else if k == 1 then j.manifest
    else if k == 2 then t.asBytes(j.signature)
    else t.toJson(j.pin)
  }

  // The existing release holds this pin's receipt, verifies, and has this very binary.
  predicate Matching(t: Trust, files: map<string, Bytes>, j: Job) {
    && BINARY in files && SUMS in files && SIGNATURE in files && RECEIPT in files
    && t.fromJson(files[RECEIPT]) == Some(j.pin)
    && t.utf8(files[SIGNATURE]).Some?
    && Verify(t, j.pin, files[SUMS], t.utf8(files[SIGNATURE]).value, files[BINARY])
    && files[BINARY] == j.binary
  }

  // One file-system operation; None when the operation or a check fails and the installer stops.
  // `torn` makes a file write stop after that many bytes, to be finished by a later step.
  function Advance(t: Trust, fs: Fs, p: Proc, torn: Option<nat>): Option<(Fs, Proc)> {
    var j, dest := p.job, Directory(p.job.pin);
    match p.phase
    case Begin =>
      if Verify(t, j.pin, j.manifest, j.signature, j.binary) then Some((fs, p.(phase := Mkdir))) else None
    case Mkdir => Some((fs.(releases := true), p.(phase := Look)))
    case Look => Some((fs, p.(phase := if dest in fs.dirs then Compare else Stage)))
    case Compare =>
      if dest in fs.dirs && Matching(t, fs.dirs[dest], j) then Some((fs, p.(phase := Recheck))) else None
    case Stage =>
      if j.stage in fs.dirs then None
      else Some((fs.(dirs := fs.dirs[j.stage := map[]]), p.(phase := Write(0))))
    case Write(k) =>
      if j.stage !in fs.dirs then None
      else
        var content := FileContent(t, j, k);
        if torn.Some? && torn.value < |content| then
          Some((fs.(dirs := fs.dirs[j.stage := fs.dirs[j.stage][FileName(k) := content[..torn.value]]]), p))
        else
          Some((fs.(dirs := fs.dirs[j.stage := fs.dirs[j.stage][FileName(k) := content]]),
                p.(phase := if k < 3 then Write(k + 1) else Protocol)))
    case Protocol =>
      if j.stage in fs.dirs && BINARY in fs.dirs[j.stage] && t.speaksProtocol(fs.dirs[j.stage][BINARY])
      then Some((fs, p.(phase := Publish))) else None
    case Publish =>
      // A directory cannot be renamed onto a non-empty one.
      if j.stage !in fs.dirs || (dest in fs.dirs && fs.dirs[dest] != map[]) then None
      else Some((fs.(dirs := (fs.dirs - {j.stage})[dest := fs.dirs[j.stage]]), p.(phase := Recheck)))
    case Recheck =>
      if dest in fs.dirs && BINARY in fs.dirs[dest] && t.speaksProtocol(fs.dirs[dest][BINARY])
      then Some((fs, p.(phase := Link))) else None
    case Link =>
      if j.link in fs.links then None else Some((fs.(links := fs.links[j.link := dest]), p.(phase := Swap)))
    case Swap =>
      if j.link !in fs.links then None
      else Some((fs.(links := (fs.links - {j.link})[CURRENT := fs.links[j.link]]), p.(phase := Done)))
    case Done => None
  }

  // A release directory is complete: four files, a receipt of a valid pin naming it, all verifying.
  ghost predicate CompleteFor(t: Trust, d: string, files: map<string, Bytes>, p: Pin) {
    && BINARY in files && SUMS in files && SIGNATURE in files && RECEIPT in files
    && t.fromJson(files[RECEIPT]) == Some(p) && Directory(p) == d
    && t.utf8(files[SIGNATURE]).Some?
    && Verify(t, p, files[SUMS], t.utf8(files[SIGNATURE]).value, files[BINARY])
    && t.speaksProtocol(files[BINARY])
  }

  ghost predicate Complete(t: Trust, d: string, files: map<string, Bytes>) {
    exists p :: CompleteFor(t, d, files, p)
  }

  // ----- interleaved installers with crashes -----

  datatype World = World(fs: Fs, procs: map<nat, Proc>)

  datatype Action = Start(id: nat, job: Job) | Step(id: nat, torn: Option<nat>) | Crash(id: nat)

  // Names drawn from fresh UUIDs have their fixed shape.
  predicate WellNamed(j: Job) {
    StageName(j.stage) && j.link != CURRENT
  }

  function Act(t: Trust, w: World, a: Action): World {
    match a
    case Start(id, j) => if id in w.procs || !WellNamed(j) then w else w.(procs := w.procs[id := Proc(j, Begin)])
    case Crash(id) => w.(procs := w.procs - {id})
    case Step(id, torn) =>
      if id !in w.procs then w
      else
        match Advance(t, w.fs, w.procs[id], torn)
        case None => w.(procs := w.procs - {id})
        case Some((fs, p)) => World(fs, w.procs[id := p])
  }

  function Run(t: Trust, w: World, actions: seq<Action>): World
    decreases actions
  {
    if actions == [] then w else Act(t, Run(t, w, actions[..|actions| - 1]), actions[|actions| - 1])
  }

  const EMPTY := World(Fs(false, map[], map[]), map[])

  predicate OwnsStage(ph: Phase) {
    ph.Write? || ph.Protocol? || ph.Publish?
  }

  // How much of the stage an installer has written.
  function Written(ph: Phase): nat {
    if ph.Write? then ph.k else 4
  }

  // What one installer may rely on.
  ghost predicate ProcOk(t: Trust, fs: Fs, p: Proc) {
    var j, dest := p.job, Directory(p.job.pin);
    && WellNamed(j)
    && (p.phase.Write? ==> p.phase.k < 4)
    && (!p.phase.Begin? ==> Verify(t, j.pin, j.manifest, j.signature, j.binary))
    && (OwnsStage(p.phase) ==>
          && j.stage in fs.dirs
          && forall k :: 0 <= k < Written(p.phase) <= 4 ==>
               FileName(k) in fs.dirs[j.stage] && fs.dirs[j.stage][FileName(k)] == FileContent(t, j, k))
    && (p.phase.Publish? ==> t.speaksProtocol(j.binary))
    && (p.phase.Recheck? || p.phase.Link? || p.phase.Swap? || p.phase.Done? ==> dest in fs.dirs)
    && (p.phase.Swap? ==> j.link in fs.links && fs.links[j.link] == dest)
  }

  ghost predicate FsOk(t: Trust, fs: Fs) {
    && (forall d :: d in fs.dirs && !StageName(d) ==> Complete(t, d, fs.dirs[d]))
    && (CURRENT in fs.links ==> fs.links[CURRENT] in fs.dirs && !StageName(fs.links[CURRENT]))
  }

  // No two installers in a staging phase share a stage, no two about to swap share a link.
  ghost predicate Separate(w: World) {
    forall a, b :: a in w.procs && b in w.procs && a != b ==> Apart(w.procs[a], w.procs[b])
  }

  predicate Apart(p: Proc, q: Proc) {
    && (OwnsStage(p.phase) && OwnsStage(q.phase) ==> p.job.stage != q.job.stage)
    && (p.phase.Swap? && q.phase.Swap? ==> p.job.link != q.job.link)
  }

  ghost predicate Inv(t: Trust, w: World) {
    FsOk(t, w.fs) && Separate(w) && forall id :: id in w.procs ==> ProcOk(t, w.fs, w.procs[id])
  }

  // A release name never looks like a stage name: it is too long.
  lemma ReleaseIsNoStage(t: Trust, p: Pin)
    requires ValidPin(t, p)
    ensures !StageName(Directory(p))
  {
    DirectoryIsLong(t, p);
  }

  // What one step of an installer owes the file tree, itself, and any other installer.
  lemma AdvanceKeeps(t: Trust, fs: Fs, p: Proc, torn: Option<nat>)
    requires Lossless(t) && FsOk(t, fs) && ProcOk(t, fs, p) && Advance(t, fs, p, torn).Some?
    ensures var (fs', p') := Advance(t, fs, p, torn).value;
            FsOk(t, fs') && ProcOk(t, fs', p')
  {
    hide Verify, Lossless, CompleteFor, Directory;
    if !p.phase.Begin? {
      assert ValidPin(t, p.job.pin) by { VerifyNeedsValid(t, p.job); }
      ReleaseIsNoStage(t, p.job.pin);
    }
    hide ValidPin;
    match p.phase
    case Begin | Mkdir | Look | Compare | Recheck | Protocol | Done => LookingKeeps(t, fs, p, torn);
    case Link | Swap => LinkingKeeps(t, fs, p, torn);
    case Stage | Write(_) => StagingKeeps(t, fs, p, torn);
    case Publish => PublishKeeps(t, fs, p);
  }

  // Steps that only look at the tree, or make its root.
  lemma LookingKeeps(t: Trust, fs: Fs, p: Proc, torn: Option<nat>)
    requires FsOk(t, fs) && ProcOk(t, fs, p) && Advance(t, fs, p, torn).Some?
    requires p.phase.Begin? || p.phase.Mkdir? || p.phase.Look? || p.phase.Compare? || p.phase.Recheck?
             || p.phase.Protocol?
    ensures var (fs', p') := Advance(t, fs, p, torn).value;
            FsOk(t, fs') && ProcOk(t, fs', p')
  {
    hide Verify, ValidPin, Complete, Directory;
    if p.phase.Protocol? {
      assert fs.dirs[p.job.stage][FileName(0)] == FileContent(t, p.job, 0);
    }
  }

  lemma LinkingKeeps(t: Trust, fs: Fs, p: Proc, torn: Option<nat>)
    requires FsOk(t, fs) && ProcOk(t, fs, p) && (p.phase.Link? || p.phase.Swap?)
    requires Advance(t, fs, p, torn).Some? && !StageName(Directory(p.job.pin))
    ensures var (fs', p') := Advance(t, fs, p, torn).value;
            FsOk(t, fs') && ProcOk(t, fs', p')
  {
    hide Verify, ValidPin, Complete, Directory, FileContent;
  }

  lemma VerifyNeedsValid(t: Trust, j: Job)
    requires Verify(t, j.pin, j.manifest, j.signature, j.binary)
    ensures ValidPin(t, j.pin)
  {
  }

  lemma StagingKeeps(t: Trust, fs: Fs, p: Proc, torn: Option<nat>)
    requires FsOk(t, fs) && ProcOk(t, fs, p) && (p.phase.Stage? || p.phase.Write?)
    requires Advance(t, fs, p, torn).Some?
    ensures var (fs', p') := Advance(t, fs, p, torn).value;
            FsOk(t, fs') && ProcOk(t, fs', p')
  {
    hide Verify, ValidPin, CompleteFor, Directory, FileContent;
    var (fs', p') := Advance(t, fs, p, torn).value;
    forall d | d in fs'.dirs && !StageName(d)
      ensures Complete(t, d, fs'.dirs[d])
    {
      assert d != p.job.stage && fs'.dirs[d] == fs.dirs[d];
    }
  }

  // A published stage is a complete release.
  lemma PublishKeeps(t: Trust, fs: Fs, p: Proc)
    requires Lossless(t) && FsOk(t, fs) && ProcOk(t, fs, p) && p.phase.Publish?
    requires Advance(t, fs, p, None).Some? && !StageName(Directory(p.job.pin))
    ensures var (fs', p') := Advance(t, fs, p, None).value;
            FsOk(t, fs') && ProcOk(t, fs', p')
  {
    hide Verify, ValidPin, Directory;
    var j, files, dest := p.job, fs.dirs[p.job.stage], Directory(p.job.pin);
    var (fs', p') := Advance(t, fs, p, None).value;
    assert FileName(0) == BINARY && FileName(1) == SUMS && FileName(2) == SIGNATURE && FileName(3) == RECEIPT;
    assert files[FileName(0)] == FileContent(t, j, 0);
    assert files[FileName(1)] == FileContent(t, j, 1);
    assert files[FileName(2)] == FileContent(t, j, 2);
    assert files[FileName(3)] == FileContent(t, j, 3);
    assert CompleteFor(t, dest, files, j.pin);
    forall d | d in fs'.dirs && !StageName(d)
      ensures Complete(t, d, fs'.dirs[d])
    {
      assert d == dest || fs'.dirs[d] == fs.dirs[d];
    }
  }

  lemma AdvanceKeepsApart(t: Trust, fs: Fs, p: Proc, torn: Option<nat>, other: Proc)
    requires ProcOk(t, fs, p) && ProcOk(t, fs, other) && Apart(p, other) && Advance(t, fs, p, torn).Some?
    ensures var (fs', p') := Advance(t, fs, p, torn).value;
            Apart(p', other) && Apart(other, p')
  {
    hide Verify, FileContent, FileName, Directory, Matching, StageName;
  }

  // Other installers keep what they rely on.
  lemma AdvanceKeepsOthers(t: Trust, fs: Fs, p: Proc, torn: Option<nat>, other: Proc)
    requires FsOk(t, fs) && ProcOk(t, fs, p) && ProcOk(t, fs, other) && Apart(p, other) && Advance(t, fs, p, torn).Some?
    ensures var (fs', p') := Advance(t, fs, p, torn).value;
            ProcOk(t, fs', other)
  {
    hide Verify, FileContent, Directory, FsOk;
    if !other.phase.Begin? {
      VerifyNeedsValid(t, other.job);
      ReleaseIsNoStage(t, other.job.pin);
    }
    hide ValidPin, Matching, StageName;
  }

  lemma ActKeepsInv(t: Trust, w: World, a: Action)
    requires Lossless(t) && Inv(t, w)
    ensures Inv(t, Act(t, w, a))
  {
    hide Advance, FsOk, Verify, Lossless;
    match a
    case Start(_, _) =>
    case Crash(_) =>
    case Step(id, torn) =>
      if id in w.procs && Advance(t, w.fs, w.procs[id], torn).Some? {
        AdvanceKeeps(t, w.fs, w.procs[id], torn);
        var w' := Act(t, w, a);
        forall other | other in w.procs && other != id
          ensures ProcOk(t, w'.fs, w'.procs[other])
          ensures Apart(w'.procs[id], w'.procs[other]) && Apart(w'.procs[other], w'.procs[id])
        {
          AdvanceKeepsOthers(t, w.fs, w.procs[id], torn, w.procs[other]);
          AdvanceKeepsApart(t, w.fs, w.procs[id], torn, w.procs[other]);
        }
        hide Apart, ProcOk;
      }
  }

  /**
   Whatever installers run, interleave, fail or crash: `current` is absent or names a complete release,
   and everything under a release name is complete.
   */
  lemma {:induction false} CurrentIsAlwaysComplete(t: Trust, actions: seq<Action>)
    requires Lossless(t)
    ensures Inv(t, Run(t, EMPTY, actions))
    ensures var fs := Run(t, EMPTY, actions).fs;
            CURRENT in fs.links ==>
              fs.links[CURRENT] in fs.dirs && Complete(t, fs.links[CURRENT], fs.dirs[fs.links[CURRENT]])
    decreases actions
  {
    hide Act, Complete, Verify, Lossless;
    if actions != [] {
      CurrentIsAlwaysComplete(t, actions[..|actions| - 1]);
      ActKeepsInv(t, Run(t, EMPTY, actions[..|actions| - 1]), actions[|actions| - 1]);
    }
  }

  /** A published release is never touched again, by any later run. */
  lemma {:induction false} ReleasesAreImmutable(t: Trust, w: World, actions: seq<Action>, d: string)
    requires Lossless(t) && Inv(t, w) && d in w.fs.dirs && !StageName(d)
    ensures Inv(t, Run(t, w, actions))
    ensures d in Run(t, w, actions).fs.dirs && Run(t, w, actions).fs.dirs[d] == w.fs.dirs[d]
    decreases actions
  {
    hide Complete, Verify, Lossless, Inv;
    if actions != [] {
      var before, a := Run(t, w, actions[..|actions| - 1]), actions[|actions| - 1];
      ReleasesAreImmutable(t, w, actions[..|actions| - 1], d);
      ActKeepsInv(t, before, a);
      if a.Step? && a.id in before.procs && Advance(t, before.fs, before.procs[a.id], a.torn).Some? {
        ReleasesAreNotEmpty(t, before, a.id, d);
        AdvanceKeepsReleases(t, before.fs, before.procs[a.id], a.torn, d);
      }
    }
  }

  lemma AdvanceKeepsReleases(t: Trust, fs: Fs, p: Proc, torn: Option<nat>, d: string)
    requires WellNamed(p.job) && d in fs.dirs && !StageName(d) && fs.dirs[d] != map[]
    requires Advance(t, fs, p, torn).Some?
    ensures var fs' := Advance(t, fs, p, torn).value.0;
            d in fs'.dirs && fs'.dirs[d] == fs.dirs[d]
  {
    hide Verify, Directory, FileContent, FileName, Matching, StageName;
    assert p.job.stage != d;
    var fs' := Advance(t, fs, p, torn).value.0;
    if p.phase.Stage? || p.phase.Write? {
      assert fs'.dirs == fs.dirs[p.job.stage := fs'.dirs[p.job.stage]];
    } else if p.phase.Publish? {
      assert Directory(p.job.pin) != d;
    } else {
      assert fs'.dirs == fs.dirs;
    }
    hide Advance;
  }

  lemma ReleasesAreNotEmpty(t: Trust, w: World, id: nat, d: string)
    requires Inv(t, w) && id in w.procs && d in w.fs.dirs && !StageName(d)
    ensures w.fs.dirs[d] != map[] && WellNamed(w.procs[id].job)
  {
    hide Verify, Directory, StageName;
    assert Complete(t, d, w.fs.dirs[d]);
    assert ProcOk(t, w.fs, w.procs[id]);
  }

  // ----- one undisturbed installer -----

  function Rank(ph: Phase): nat {
    match ph
    case Begin => 20
    case Mkdir => 19
    case Look => 18
    case Compare => 10
    case Stage => 17
    case Write(k) => if k < 4 then 16 - k else 12
    case Protocol => 11
    case Publish => 10
    case Recheck => 9
    case Link => 8
    case Swap => 7
    case Done => 0
  }

  predicate Sane(ph: Phase) {
    ph.Write? ==> ph.k < 4
  }

  // Run one installer to its end; the flag says whether it finished.
  function Drive(t: Trust, fs: Fs, p: Proc): (Fs, bool)
    requires Sane(p.phase)
    decreases Rank(p.phase)
  {
    if p.phase.Done? then (fs, true)
    else
      match Advance(t, fs, p, None)
      case None => (fs, false)
      case Some((fs', p')) => Drive(t, fs', p')
  }

  class DataRoot {
    var fs: Fs

    constructor (fs: Fs)
      ensures this.fs == fs
    {
      this.fs := fs;
    }

    /** Stage, publish and switch to a release, or reuse the one already published. */
    method InstallVerified(t: Trust, j: Job) returns (ok: bool)
      modifies this
      ensures (fs, ok) == Drive(t, old(fs), Proc(j, Begin))
    {
      hide Verify, Matching, Directory;
      ghost var start := fs;
      if !Verify(t, j.pin, j.manifest, j.signature, j.binary) {
        return false;
      }
      fs := fs.(releases := true);
      assert Drive(t, start, Proc(j, Begin)) == Drive(t, start, Proc(j, Mkdir)) == Drive(t, fs, Proc(j, Look));
      var dest := Directory(j.pin);
      if dest in fs.dirs {
        assert Drive(t, fs, Proc(j, Look)) == Drive(t, fs, Proc(j, Compare));
        if !Matching(t, fs.dirs[dest], j) {
          return false;
        }
      } else {
        assert Drive(t, fs, Proc(j, Look)) == Drive(t, fs, Proc(j, Stage));
        ok := StageAndPublish(t, j);
        if !ok {
          return;
        }
      }
      ok := SwitchTo(t, j);
    }

    // Write the four files into a fresh stage, check the protocol, and rename it into place.
    method StageAndPublish(t: Trust, j: Job) returns (ok: bool)
      modifies this
      ensures Drive(t, old(fs), Proc(j, Stage)) == if ok then Drive(t, fs, Proc(j, Recheck)) else (fs, false)
    {
      hide Drive, Directory, FileContent, FileName;
      ghost var start := fs;
      DriveStep(t, fs, Proc(j, Stage));
      if j.stage in fs.dirs {
        return false;
      }
      fs := fs.(dirs := fs.dirs[j.stage := map[]]);
      for k := 0 to 4
        invariant j.stage in fs.dirs
        invariant Drive(t, start, Proc(j, Stage)) == Drive(t, fs, Proc(j, if k < 4 then Write(k) else Protocol))
      {
        DriveStep(t, fs, Proc(j, Write(k)));
        fs := fs.(dirs := fs.dirs[j.stage := fs.dirs[j.stage][FileName(k) := FileContent(t, j, k)]]);
      }
      DriveStep(t, fs, Proc(j, Protocol));
      if BINARY !in fs.dirs[j.stage] || !t.speaksProtocol(fs.dirs[j.stage][BINARY]) {
        return false;
      }
      DriveStep(t, fs, Proc(j, Publish));
      var dest := Directory(j.pin);
      if dest in fs.dirs && fs.dirs[dest] != map[] {
        return false;
      }
      fs := fs.(dirs := (fs.dirs - {j.stage})[dest := fs.dirs[j.stage]]);
      return true;
    }

    // Check the release's protocol and point `current` at it atomically.
    method SwitchTo(t: Trust, j: Job) returns (ok: bool)
      modifies this
      ensures (fs, ok) == Drive(t, old(fs), Proc(j, Recheck))
    {
      hide Directory;
      ghost var start := fs;
      var dest := Directory(j.pin);
      if dest !in fs.dirs || BINARY !in fs.dirs[dest] || !t.speaksProtocol(fs.dirs[dest][BINARY]) {
        return false;
      }
      assert Drive(t, fs, Proc(j, Recheck)) == Drive(t, fs, Proc(j, Link));
      if j.link in fs.links {
        return false;
      }
      fs := fs.(links := fs.links[j.link := dest]);
      assert Drive(t, start, Proc(j, Link)) == Drive(t, fs, Proc(j, Swap));
      fs := fs.(links := (fs.links - {j.link})[CURRENT := dest]);
      assert Drive(t, start, Proc(j, Recheck)) == Drive(t, fs, Proc(j, Done));
      return true;
    }
  }

  // The four files of a release as one job writes them.
  function Files(t: Trust, j: Job): map<string, Bytes> {
    map[BINARY := j.binary, SUMS := j.manifest, SIGNATURE := t.asBytes(j.signature), RECEIPT := t.toJson(j.pin)]
  }

  // An undisturbed installer keeps the file tree sound at every step, so also when it stops early.
  lemma {:induction false} DriveKeepsFs(t: Trust, fs: Fs, p: Proc)
    requires Lossless(t) && FsOk(t, fs) && ProcOk(t, fs, p)
    ensures FsOk(t, Drive(t, fs, p).0)
    decreases Rank(p.phase)
  {
    hide FsOk, Verify, Lossless, Complete;
    if !p.phase.Done? && Advance(t, fs, p, None).Some? {
      AdvanceKeeps(t, fs, p, None);
      DriveKeepsFs(t, Advance(t, fs, p, None).value.0, Advance(t, fs, p, None).value.1);
    }
  }

  lemma DriveFromRecheck(t: Trust, fs: Fs, j: Job)
    requires j.link !in fs.links && j.link != CURRENT && Directory(j.pin) in fs.dirs
             && BINARY in fs.dirs[Directory(j.pin)]
    ensures var dest := Directory(j.pin);
            Drive(t, fs, Proc(j, Recheck))
            == if t.speaksProtocol(fs.dirs[dest][BINARY])
              then (fs.(links := fs.links[CURRENT := dest]), true) else (fs, false)
  {
    hide Directory;
    var dest := Directory(j.pin);
    if t.speaksProtocol(fs.dirs[dest][BINARY]) {
      var linked := fs.(links := fs.links[j.link := dest]);
      var swapped := fs.(links := (linked.links - {j.link})[CURRENT := dest]);
      assert swapped.links == fs.links[CURRENT := dest];
      assert Drive(t, fs, Proc(j, Recheck)) == Drive(t, fs, Proc(j, Link));
      assert Drive(t, fs, Proc(j, Link)) == Drive(t, linked, Proc(j, Swap));
      assert Drive(t, linked, Proc(j, Swap)) == Drive(t, swapped, Proc(j, Done));
    }
  }

  // One step of an undisturbed installer.
  lemma DriveStep(t: Trust, fs: Fs, p: Proc)
    requires Sane(p.phase) && !p.phase.Done?
    ensures Advance(t, fs, p, None).None? ==> Drive(t, fs, p) == (fs, false)
    ensures Advance(t, fs, p, None).Some? ==>
              Drive(t, fs, p) == Drive(t, Advance(t, fs, p, None).value.0, Advance(t, fs, p, None).value.1)
  {
  }

  // The stage after the first k files.
  function StageFiles(t: Trust, j: Job, k: nat): map<string, Bytes> {
    if k == 0 then map[] else StageFiles(t, j, k - 1)[FileName(k - 1) := FileContent(t, j, k - 1)]
  }

  lemma {:induction false} WriteFiles(t: Trust, fs: Fs, j: Job, k: nat)
    requires k <= 4
    ensures Drive(t, fs.(dirs := fs.dirs[j.stage := map[]]), Proc(j, Write(0)))
         == Drive(t, fs.(dirs := fs.dirs[j.stage := StageFiles(t, j, k)]),
           Proc(j, if k < 4 then Write(k) else Protocol))
  {
    hide Drive, FileName, FileContent;
    if k > 0 {
      WriteFiles(t, fs, j, k - 1);
      var before := fs.(dirs := fs.dirs[j.stage := StageFiles(t, j, k - 1)]);
      DriveStep(t, before, Proc(j, Write(k - 1)));
      assert before.dirs[j.stage := StageFiles(t, j, k)] == fs.dirs[j.stage := StageFiles(t, j, k)];
    }
  }

  lemma AllFiles(t: Trust, j: Job)
    ensures StageFiles(t, j, 4) == Files(t, j)
  {
    assert StageFiles(t, j, 1) == map[BINARY := j.binary];
    assert StageFiles(t, j, 2) == StageFiles(t, j, 1)[SUMS := j.manifest];
    assert StageFiles(t, j, 3) == StageFiles(t, j, 2)[SIGNATURE := t.asBytes(j.signature)];
    assert StageFiles(t, j, 4) == StageFiles(t, j, 3)[RECEIPT := t.toJson(j.pin)];
  }

  lemma Renamed(dirs: map<string, map<string, Bytes>>, stage: string, dest: string, files: map<string, Bytes>)
    requires stage !in dirs && dest !in dirs && stage != dest
    ensures (dirs[stage := files] - {stage})[dest := files] == dirs[dest := files]
  {
  }

  lemma FilesHaveBinary(t: Trust, j: Job)
    ensures BINARY in Files(t, j) && Files(t, j)[BINARY] == j.binary
  {
  }

  lemma DriveFromStage(t: Trust, fs: Fs, j: Job)
    requires j.stage !in fs.dirs && Directory(j.pin) !in fs.dirs && j.stage != Directory(j.pin)
    ensures Drive(t, fs, Proc(j, Stage))
         == if t.speaksProtocol(j.binary)
            then Drive(t, fs.(dirs := fs.dirs[Directory(j.pin) := Files(t, j)]), Proc(j, Recheck))
            else (fs.(dirs := fs.dirs[j.stage := Files(t, j)]), false)
  {
    hide Drive, Directory, FileName, FileContent;
    var staged := fs.(dirs := fs.dirs[j.stage := Files(t, j)]);
    DriveStep(t, fs, Proc(j, Stage));
    WriteFiles(t, fs, j, 4);
    AllFiles(t, j);
    hide StageFiles;
    DriveStep(t, staged, Proc(j, Protocol));
    FilesHaveBinary(t, j);
    hide Files;
    if t.speaksProtocol(j.binary) {
      DriveStep(t, staged, Proc(j, Publish));
      Renamed(fs.dirs, j.stage, Directory(j.pin), Files(t, j));
    }
  }

  // The installed release of `dest` came with this receipt.
  ghost predicate ReceiptIs(t: Trust, fs: Fs, pin: Pin) {
    Directory(pin) in fs.dirs && RECEIPT in fs.dirs[Directory(pin)]
      && t.fromJson(fs.dirs[Directory(pin)][RECEIPT]) == Some(pin)
  }

  // The release verifies and any release already under its name has this receipt and binary.
  ghost predicate Installable(t: Trust, fs: Fs, j: Job) {
    var dest := Directory(j.pin);
    && Verify(t, j.pin, j.manifest, j.signature, j.binary) && t.speaksProtocol(j.binary)
    && (dest in fs.dirs ==> BINARY in fs.dirs[dest] && ReceiptIs(t, fs, j.pin) && fs.dirs[dest][BINARY] == j.binary)
  }

  // Where a successful install leaves the tree.
  function Installed(t: Trust, fs: Fs, j: Job): Fs {
    var dest := Directory(j.pin);
    Fs(true, if dest in fs.dirs then fs.dirs else fs.dirs[dest := Files(t, j)], fs.links[CURRENT := dest])
  }

  // A sound release matches a job exactly when receipt and binary do.
  lemma MatchingIff(t: Trust, fs: Fs, j: Job)
    requires FsOk(t, fs) && Directory(j.pin) in fs.dirs && !StageName(Directory(j.pin))
    ensures var files := fs.dirs[Directory(j.pin)];
            && BINARY in files && RECEIPT in files
            && (Matching(t, files, j) <==> ReceiptIs(t, fs, j.pin) && files[BINARY] == j.binary)
            && t.speaksProtocol(files[BINARY])
  {
    hide Verify, Directory;
    assert Complete(t, Directory(j.pin), fs.dirs[Directory(j.pin)]);
  }

  lemma DriveToLook(t: Trust, fs: Fs, j: Job)
    ensures Drive(t, fs, Proc(j, Begin))
         == if Verify(t, j.pin, j.manifest, j.signature, j.binary)
            then Drive(t, fs.(releases := true), Proc(j, if Directory(j.pin) in fs.dirs then Compare else Stage))
            else (fs, false)
  {
    hide Drive, Verify, Directory;
    DriveStep(t, fs, Proc(j, Begin));
    DriveStep(t, fs, Proc(j, Mkdir));
    DriveStep(t, fs.(releases := true), Proc(j, Look));
  }

  /**
   An undisturbed install with fresh names succeeds exactly when the release verifies, speaks the protocol, and
   any release already under its name has this receipt and binary; it then ends with `current` at the pin.
   On failure no link changes.
   */
  lemma InstallOutcome(t: Trust, fs: Fs, j: Job)
    requires Lossless(t) && FsOk(t, fs) && WellNamed(j) && j.stage !in fs.dirs && j.link !in fs.links
    ensures var (fs', ok) := Drive(t, fs, Proc(j, Begin));
            && (ok <==> Installable(t, fs, j))
            && (if ok then fs' == Installed(t, fs, j) else fs'.links == fs.links)
  {
    hide Drive, Verify, Directory, ValidPin, Complete, Matching, Lossless, StageName;
    DriveToLook(t, fs, j);
    var made, dest := fs.(releases := true), Directory(j.pin);
    if Verify(t, j.pin, j.manifest, j.signature, j.binary) {
      VerifyNeedsValid(t, j);
      ReleaseIsNoStage(t, j.pin);
      if dest in fs.dirs {
        MatchingIff(t, fs, j);
        DriveStep(t, made, Proc(j, Compare));
        DriveFromRecheck(t, made, j);
      } else {
        DriveFromStage(t, made, j);
        DriveFromRecheck(t, made.(dirs := made.dirs[dest := Files(t, j)]), j);
      }
    }
  }

  /** With a collision-free digest, retrying a pin whose receipt is already installed always ends at that pin. */
  lemma RetrySucceeds(t: Trust, fs: Fs, j: Job)
    requires Lossless(t) && FsOk(t, fs) && WellNamed(j) && j.stage !in fs.dirs && j.link !in fs.links
    requires forall x, y :: t.sha256(x) == t.sha256(y) ==> x == y
    requires Verify(t, j.pin, j.manifest, j.signature, j.binary) && ReceiptIs(t, fs, j.pin)
    ensures Drive(t, fs, Proc(j, Begin)) == (Installed(t, fs, j), true)
    ensures Installed(t, fs, j) == Fs(true, fs.dirs, fs.links[CURRENT := Directory(j.pin)])
  {
    InstallOutcome(t, fs, j);
    VerifyNeedsValid(t, j);
    ReleaseIsNoStage(t, j.pin);
    hide Drive, Directory, StageName;
    assert Complete(t, Directory(j.pin), fs.dirs[Directory(j.pin)]);
  }
}
