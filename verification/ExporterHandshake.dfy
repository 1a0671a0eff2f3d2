/**
 The exporter's two-thread protocol: the spawner waits on a rendezvous channel for readiness,
 the runtime thread holds the socket until the shutdown channel closes.
 */
module ExporterHandshake {
  import opened Basics

  // The thread that calls `spawn_at` and later drops the handle.
  datatype Main =
    | Starting              // before the thread is spawned
    | Waiting               // in ready_rx.recv()
    | Received(ok: bool)    // readiness arrived; `spawn_at` not yet returned
    | Failed                // `spawn_at` returned an error
    | Live                  // the handle exists
    | Polling               // the handle is being dropped: sender gone, polling is_finished
    | Joined
    | Leaked                // the join budget ran out

  // The runtime thread.
  datatype Worker =
    | NotStarted | Building | Installing | Tightening
    | Reporting(ok: bool)   // in ready_tx.send(..)
    | Parked                // in shutdown_rx.recv()
    | Releasing             // about to drop the guard
    | Unwinding             // a panic is about to drop the guard
    | Stopping              // about to drop the runtime
    | Exited

  datatype World = World(main: Main, worker: Worker, bound: bool)

  datatype Step =
    | SpawnFails | Spawn
    | BuildFails | Build | InstallFails | Install | Tighten | Panic
    | Rendezvous | SendFails | Hangup
    | Return | DropHandle | Wake | ReleaseGuard | Unwind | StopRuntime
    | Join | GiveUp

  const START := World(Starting, NotStarted, false)

  // The shutdown sender lives until `spawn_at` fails or the handle's drop takes it.
  predicate SenderAlive(m: Main) {
    m.Starting? || m.Waiting? || m.Received? || m.Live?
  }

  predicate ReceiverGone(m: Main) {
    !m.Starting? && !m.Waiting?
  }

  // None when the step cannot happen.
  function Next(w: World, s: Step): Option<World> {
    match s
    case SpawnFails => if w.main.Starting? then Some(w.(main := Failed)) else None
    case Spawn => if w.main.Starting? then Some(World(Waiting, Building, w.bound)) else None
    case BuildFails => if w.worker.Building? then Some(w.(worker := Reporting(false))) else None
    case Build => if w.worker.Building? then Some(w.(worker := Installing)) else None
    case InstallFails => if w.worker.Installing? then Some(w.(worker := Reporting(false))) else None
    case Install => if w.worker.Installing? then Some(w.(worker := Tightening, bound := true)) else None
    case Tighten => if w.worker.Tightening? then Some(w.(worker := Reporting(true))) else None
    case Panic =>
      if w.worker.Building? || w.worker.Installing? then Some(w.(worker := Exited))
      else if w.worker.Tightening? then Some(w.(worker := Unwinding)) else None
    case Rendezvous =>
      if w.worker.Reporting? && w.main.Waiting?
      then Some(w.(main := Received(w.worker.ok), worker := if w.worker.ok then Parked else Exited)) else None
    case SendFails =>
      if w.worker.Reporting? && ReceiverGone(w.main)
      then Some(w.(worker := if w.worker.ok then Releasing else Exited)) else None
    case Hangup => if w.main.Waiting? && w.worker.Exited? then Some(w.(main := Failed)) else None
    case Return => if w.main.Received? then Some(w.(main := if w.main.ok then Live else Failed)) else None
    case DropHandle => if w.main.Live? then Some(w.(main := Polling)) else None
    case Wake => if w.worker.Parked? && !SenderAlive(w.main) then Some(w.(worker := Releasing)) else None
    case ReleaseGuard => if w.worker.Releasing? then Some(w.(worker := Stopping, bound := false)) else None
    case Unwind => if w.worker.Unwinding? then Some(w.(worker := Exited, bound := false)) else None
    case StopRuntime => if w.worker.Stopping? then Some(w.(worker := Exited)) else None
    case Join => if w.main.Polling? && w.worker.Exited? then Some(w.(main := Joined)) else None
    case GiveUp => if w.main.Polling? && !w.worker.Exited? then Some(w.(main := Leaked)) else None
  }

  // Every interleaving: the world after a list of steps, all of which could happen.
  function Run(w: World, steps: seq<Step>): Option<World>
    decreases steps
  {
    if steps == [] then Some(w)
    else
      var before := Run(w, steps[..|steps| - 1]);
      if before.None? then None else Next(before.value, steps[|steps| - 1])
  }

  // Which pairs of positions occur together, and who holds the socket.
  ghost predicate Inv(w: World) {
    && (w.bound <==> w.worker in {Tightening, Reporting(true), Parked, Releasing, Unwinding})
    && (w.main.Starting? ==> w.worker.NotStarted?)
    && (w.main.Waiting? ==>
       w.worker in {Building, Installing, Tightening, Reporting(true), Reporting(false), Unwinding, Exited})
    && (w.main == Received(true) || w.main.Live? ==> w.worker.Parked?)
    && (w.main == Received(false) ==> w.worker.Exited?)
    && (w.main.Failed? ==> w.worker.NotStarted? || w.worker.Exited?)
    && (w.main.Polling? || w.main.Leaked? ==> w.worker in {Parked, Releasing, Stopping, Exited})
    && (w.main.Joined? ==> w.worker.Exited?)
  }

  lemma StepKeepsInv(w: World, s: Step)
    requires Inv(w) && Next(w, s).Some?
    ensures Inv(Next(w, s).value)
  {
  }

  lemma {:induction false} RunKeepsInv(steps: seq<Step>)
    requires Run(START, steps).Some?
    ensures Inv(Run(START, steps).value)
    decreases steps
  {
    if steps != [] {
      RunKeepsInv(steps[..|steps| - 1]);
      StepKeepsInv(Run(START, steps[..|steps| - 1]).value, steps[|steps| - 1]);
    }
  }

  /**
   In every interleaving: `spawn_at` returns a handle only with the socket bound, the socket stays bound while the
   handle lives, an error return leaves it unbound, and a readiness report always finds its receiver.
   */
  lemma HandshakeIsSound(steps: seq<Step>)
    requires Run(START, steps).Some?
    ensures var w := Run(START, steps).value;
            && (w.main.Live? ==> w.bound && w.worker.Parked?)
            && (w.main.Failed? ==> !w.bound && (w.worker.NotStarted? || w.worker.Exited?))
            && (w.main.Joined? ==> !w.bound && w.worker.Exited?)
            && Next(w, SendFails).None?
  {
    RunKeepsInv(steps);
  }

  // The runtime is built, the socket installed and its mode tightened, in this order.
  ghost predicate Prepared(steps: seq<Step>) {
    exists a, b, c :: 0 <= a < b < c < |steps| && steps[a] == Build && steps[b] == Install && steps[c] == Tighten
  }

  ghost predicate InstalledBy(steps: seq<Step>) {
    exists a, b :: 0 <= a < b < |steps| && steps[a] == Build && steps[b] == Install
  }

  lemma {:induction false} PreparedBefore(steps: seq<Step>)
    requires Run(START, steps).Some?
    ensures var w := Run(START, steps).value;
            && (w.worker.Installing? ==> Built(steps))
            && (w.worker.Tightening? ==> InstalledBy(steps))
            && (w.worker == Reporting(true) || w.worker.Parked? || w.worker.Releasing? ==> Prepared(steps))
    decreases steps
  {
    if steps != [] {
      var n := |steps| - 1;
      hide Next, Prepared, InstalledBy, Built;
      PreparedBefore(steps[..n]);
      LastEvents(steps);
      WorkerComesFrom(Run(START, steps[..n]).value, steps[n]);
    }
  }

  // How the thread gets to where it is.
  lemma WorkerComesFrom(w: World, s: Step)
    requires Next(w, s).Some?
    ensures var k := Next(w, s).value.worker;
            && (k.Installing? ==> w.worker.Installing? || s == Build)
            && (k.Tightening? ==> w.worker.Tightening? || (w.worker.Installing? && s == Install))
            && (k == Reporting(true) || k.Parked? || k.Releasing? ==>
                  || w.worker == Reporting(true) || w.worker.Parked? || w.worker.Releasing?
                  || (w.worker.Tightening? && s == Tighten))
  {
  }

  ghost predicate Built(steps: seq<Step>) {
    exists a :: 0 <= a < |steps| && steps[a] == Build
  }

  // What the last step adds to what came before.
  lemma LastEvents(steps: seq<Step>)
    requires steps != []
    ensures var before, s := steps[..|steps| - 1], steps[|steps| - 1];
            && (Built(before) || s == Build ==> Built(steps))
            && (InstalledBy(before) || (Built(before) && s == Install) ==> InstalledBy(steps))
            && (Prepared(before) || (InstalledBy(before) && s == Tighten) ==> Prepared(steps))
  {
    var n := |steps| - 1;
    var before, s := steps[..n], steps[n];
    assert steps[n] == s;
    if a :| 0 <= a < |before| && before[a] == Build {
      assert steps[a] == Build;
    }
    if a, b :| 0 <= a < b < |before| && before[a] == Build && before[b] == Install {
      assert steps[a] == Build && steps[b] == Install;
    }
    if a, b, c :| 0 <= a < b < c < |before| && before[a] == Build && before[b] == Install && before[c] == Tighten {
      assert steps[a] == Build && steps[b] == Install && steps[c] == Tighten;
    }
  }

  /** A handle exists only after the runtime was built, the socket installed, and its mode tightened. */
  lemma LiveIsPrepared(steps: seq<Step>)
    requires Run(START, steps).Some? && Run(START, steps).value.main.Live?
    ensures Prepared(steps)
  {
    RunKeepsInv(steps);
    PreparedBefore(steps);
  }

  const TO_LIFE: seq<Step> := [Spawn, Build, Install, Tighten, Rendezvous, Return]
  const TO_END: seq<Step> := [DropHandle, Wake, ReleaseGuard, StopRuntime, Join]

  // A handle can come to life ...
  lemma HandleCanLive()
    ensures Run(START, TO_LIFE) == Some(World(Live, Parked, true))
  {
    hide Run;
    RunFirst(START, TO_LIFE);
    RunFirst(World(Waiting, Building, false), TO_LIFE[1..]);
    RunFirst(World(Waiting, Installing, false), TO_LIFE[2..]);
    RunFirst(World(Waiting, Tightening, true), TO_LIFE[3..]);
    RunFirst(World(Waiting, Reporting(true), true), TO_LIFE[4..]);
    RunFirst(World(Received(true), Parked, true), TO_LIFE[5..]);
  }

  // ... and be dropped with the thread joined and the socket released.
  lemma HandleCanEnd()
    ensures Run(START, TO_LIFE + TO_END) == Some(World(Joined, Exited, false))
  {
    hide Run, TO_LIFE, TO_END;
    HandleCanLive();
    RunJoins(START, TO_LIFE, TO_END);
    DropCanEnd();
  }

  lemma DropCanEnd()
    ensures Run(World(Live, Parked, true), TO_END) == Some(World(Joined, Exited, false))
  {
    hide Run;
    RunFirst(World(Live, Parked, true), TO_END);
    RunFirst(World(Polling, Parked, true), TO_END[1..]);
    StopCanEnd();
  }

  lemma StopCanEnd()
    ensures Run(World(Polling, Releasing, true), TO_END[2..]) == Some(World(Joined, Exited, false))
  {
    hide Run;
    RunFirst(World(Polling, Releasing, true), TO_END[2..]);
    RunFirst(World(Polling, Stopping, false), TO_END[3..]);
    RunFirst(World(Polling, Exited, false), TO_END[4..]);
  }

  lemma {:induction false} RunJoins(w: World, a: seq<Step>, b: seq<Step>)
    requires Run(w, a).Some?
    ensures Run(w, a + b) == Run(Run(w, a).value, b)
    decreases b
  {
    hide Next;
    if b == [] {
      assert a + b == a;
    } else {
      InitOfConcat(a, b);
      RunJoins(w, a, b[..|b| - 1]);
    }
  }

  lemma RunFirst(w: World, steps: seq<Step>)
    requires steps != [] && Next(w, steps[0]).Some?
    ensures Run(w, steps) == Run(Next(w, steps[0]).value, steps[1..])
    ensures |steps| == 1 ==> Run(w, steps) == Next(w, steps[0])
  {
    hide Next;
    var a, b := [steps[0]], steps[1..];
    assert steps == a + b;
    assert a[..0] == [];
    assert Run(w, a) == Next(w, steps[0]);
    RunJoins(w, a, b);
  }

  ghost predicate Over(w: World) {
    w.main in {Failed, Joined, Leaked} && (w.worker.NotStarted? || w.worker.Exited?)
  }

  ghost predicate CanStep(w: World) {
    exists s :: Next(w, s).Some?
  }

  /** No deadlock: a reachable world is over or can step, and a live handle can always be dropped. */
  lemma NoDeadlock(steps: seq<Step>)
    requires Run(START, steps).Some?
    ensures var w := Run(START, steps).value; Over(w) || CanStep(w)
  {
    RunKeepsInv(steps);
    var w := Run(START, steps).value;
    var s :=
      match w.worker
      case NotStarted => Spawn
      case Building => Build
      case Installing => Install
      case Tightening => Tighten
      case Reporting(_) => Rendezvous
      case Parked => if w.main.Received? then Return else if w.main.Live? then DropHandle else Wake
      case Releasing => ReleaseGuard
      case Unwinding => Unwind
      case Stopping => StopRuntime
      case Exited => if w.main.Waiting? then Hangup else if w.main.Received? then Return else Join;
    assert Over(w) || Next(w, s).Some?;
  }

  function MainRank(m: Main): nat {
    match m
    case Starting => 6
    case Waiting => 5
    case Received(_) => 4
    case Live => 3
    case Polling => 2
    case Failed | Joined | Leaked => 0
  }

  function WorkerRank(k: Worker): nat {
    match k
    case NotStarted => 9
    case Building => 8
    case Installing => 7
    case Tightening => 6
    case Reporting(_) => 5
    case Parked => 4
    case Releasing | Unwinding => 3
    case Stopping => 2
    case Exited => 0
  }

  function Rank(w: World): nat {
    MainRank(w.main) + WorkerRank(w.worker)
  }

  /** Every step lowers the rank, so no schedule is longer than the rank of its first world. */
  lemma {:induction false} SchedulesAreShort(w: World, steps: seq<Step>)
    requires Inv(w) && Run(w, steps).Some?
    ensures Inv(Run(w, steps).value) && |steps| + Rank(Run(w, steps).value) <= Rank(w)
    decreases steps
  {
    if steps != [] {
      SchedulesAreShort(w, steps[..|steps| - 1]);
      StepLowersRank(Run(w, steps[..|steps| - 1]).value, steps[|steps| - 1]);
      StepKeepsInv(Run(w, steps[..|steps| - 1]).value, steps[|steps| - 1]);
    }
  }

  lemma StepLowersRank(w: World, s: Step)
    requires Inv(w) && Next(w, s).Some?
    ensures Rank(Next(w, s).value) < Rank(w)
  {
  }

  /**
   Once the handle is dropped, every schedule reaches in at most 6 steps a world where nothing can happen, and there
   the thread has exited and the socket is released, whether or not the drop waited for it.
   */
  lemma DropReleasesSocket(steps: seq<Step>, later: seq<Step>)
    requires Run(START, steps).Some? && Run(START, steps).value.main.Live?
    requires Run(START, steps + [DropHandle] + later).Some?
    ensures |later| <= 6
    ensures var w := Run(START, steps + [DropHandle] + later).value;
            !CanStep(w) ==> w.worker.Exited? && !w.bound && (w.main.Joined? || w.main.Leaked?)
  {
    hide Next, CanStep;
    var all := steps + [DropHandle] + later;
    RunSplits(START, steps + [DropHandle], later);
    RunSplits(START, steps, [DropHandle]);
    OneStep(Run(START, steps).value, DropHandle);
    HandshakeIsSound(steps);
    var dropped := Run(START, steps + [DropHandle]).value;
    assert dropped == Run(START, steps).value.(main := Polling);
    RunKeepsInv(steps + [DropHandle]);
    SchedulesAreShort(dropped, later);
    StaysDropped(dropped, later);
    NoDeadlock(all);
    HandshakeIsSound(all);
    RunKeepsInv(all);
    hide Run;
  }

  lemma OneStep(w: World, s: Step)
    ensures Run(w, [s]) == Next(w, s)
    ensures w.main.Live? ==> Next(w, DropHandle) == Some(w.(main := Polling))
  {
    assert [s][..0] == [];
  }

  lemma {:induction false} RunSplits(w: World, a: seq<Step>, b: seq<Step>)
    requires Run(w, a + b).Some?
    ensures Run(w, a).Some? && Run(Run(w, a).value, b) == Run(w, a + b)
    decreases b
  {
    if b == [] {
      assert a + b == a;
    } else {
      assert (a + b)[..|a + b| - 1] == a + b[..|b| - 1];
      RunSplits(w, a, b[..|b| - 1]);
    }
  }

  lemma {:induction false} StaysDropped(w: World, steps: seq<Step>)
    requires w.main in {Polling, Joined, Leaked} && Run(w, steps).Some?
    ensures Run(w, steps).value.main in {Polling, Joined, Leaked}
    decreases steps
  {
    if steps != [] {
      StaysDropped(w, steps[..|steps| - 1]);
    }
  }
}
