/** Running one worker under its cancellation guard, poll by poll. */
module CancelDispatch {
  import opened Basics
  import opened CancelRegistry

  // One poll of the worker: the steps other tasks take while it runs, then its answer.
  datatype WorkerPoll<R> = Pending | Ready(value: R)

  datatype Poll<R> = Poll(before: seq<Step>, during: seq<Step>, worker: WorkerPoll<R>)

  datatype Dispatched<R> = Completed(value: R) | Cancelled

  // The outcome and the world at the moment it is decided (before the guard drops); None while pending.
  function Outcome<R>(w: World, g: Guard, polls: seq<Poll<R>>): (World, Option<Dispatched<R>>)
    decreases polls
  {
    if polls == [] then (w, None)
    else
      var p := polls[0];
      var polled := Run(w, p.before);
      if g.token in polled.fired then (polled, Some(Cancelled))
      else
        var ran := Run(polled, p.during);
        match p.worker
        case Pending => Outcome(ran, g, polls[1..])
        case Ready(v) => (ran, Some(if g.token in ran.fired then Cancelled else Completed(v)))
  }

  // A guard is dropped at most once.
  ghost predicate DropsLive(w: World, steps: seq<Step>) {
    forall n :: 0 <= n < |steps| && steps[n].Drop? ==> steps[n].guard in Run(w, steps[..n]).live
  }

  // Other tasks drop only guards they still hold, and never this one.
  ghost predicate Fair<R>(w: World, g: Guard, polls: seq<Poll<R>>)
    decreases polls
  {
    polls != [] ==>
      var p := polls[0];
      var polled := Run(w, p.before);
      && DropsLive(w, p.before) && DropsLive(polled, p.during)
      && Drop(g) !in p.before && Drop(g) !in p.during
      && Fair(Run(polled, p.during), g, polls[1..])
  }

  method TakeSteps(registry: Registry, steps: seq<Step>)
    requires DropsLive(registry.Current(), steps)
    modifies registry
    ensures registry.Current() == Run(old(registry.Current()), steps)
  {
    for n := 0 to |steps|
      invariant registry.Current() == Run(old(registry.Current()), steps[..n])
    {
      assert steps[..n + 1][..n] == steps[..n];
      match steps[n] {
        case Register(id) => var _ := registry.Register(id);
        case Cancel(id) => var _ := registry.Cancel(id);
        case Fire(token) => registry.Fire(token);
        case Drop(g) => registry.DropGuard(g);
      }
    }
    assert steps[..|steps|] == steps;
  }

  lemma {:induction false} GuardStaysLive(w: World, g: Guard, steps: seq<Step>)
    requires g in w.live && Drop(g) !in steps
    ensures g in Run(w, steps).live
    decreases steps
  {
    if steps != [] {
      GuardStaysLive(w, g, steps[..|steps| - 1]);
    }
  }

  lemma {:induction false} FiredStays(w: World, t: Token, steps: seq<Step>)
    requires t in w.fired
    ensures t in Run(w, steps).fired
    decreases steps
  {
    if steps != [] {
      FiredStays(w, t, steps[..|steps| - 1]);
    }
  }

  /** Poll the token first, then the worker, then the token again; drop the guard with the outcome. */
  method DispatchWithCancel<R>(registry: Registry, guard: Guard, polls: seq<Poll<R>>)
    returns (out: Option<Dispatched<R>>)
    requires guard in registry.live && Fair(registry.Current(), guard, polls)
    modifies registry
    ensures out == Outcome(old(registry.Current()), guard, polls).1
    ensures var decided := Outcome(old(registry.Current()), guard, polls).0;
            registry.Current() == if out.Some? then Apply(decided, Drop(guard)) else decided
  {
    ghost var start := registry.Current();
    for n := 0 to |polls|
      invariant guard in registry.live && Fair(registry.Current(), guard, polls[n..])
      invariant Outcome(start, guard, polls) == Outcome(registry.Current(), guard, polls[n..])
    {
      var p := polls[n];
      assert polls[n..][0] == p && polls[n..][1..] == polls[n + 1..];
      ghost var w := registry.Current();
      TakeSteps(registry, p.before);
      GuardStaysLive(w, guard, p.before);
      if guard.token in registry.fired {
        registry.DropGuard(guard);
        return Some(Cancelled);
      }
      GuardStaysLive(Run(w, p.before), guard, p.during);
      TakeSteps(registry, p.during);
      if p.worker.Ready? {
        out := Some(if guard.token in registry.fired then Cancelled else Completed(p.worker.value));
        registry.DropGuard(guard);
        return;
      }
    }
    return None;
  }

  /**
   A dispatch completes only with its token uncancelled, is cancelled only with it cancelled, and keeps its guard
   until then.
   */
  lemma {:induction false} OutcomeMatchesToken<R>(w: World, g: Guard, polls: seq<Poll<R>>)
    requires g in w.live && Fair(w, g, polls)
    ensures var (end, out) := Outcome(w, g, polls);
            && g in end.live
            && (out.Some? ==> (out.value.Cancelled? <==> g.token in end.fired))
            && (g.token in w.fired && polls != [] ==> out == Some(Cancelled) && end == Run(w, polls[0].before))
    decreases polls
  {
    if polls != [] {
      var p := polls[0];
      var polled := Run(w, p.before);
      GuardStaysLive(w, g, p.before);
      if g.token in w.fired {
        FiredStays(w, g.token, p.before);
      }
      if g.token !in polled.fired {
        GuardStaysLive(polled, g, p.during);
        if p.worker.Pending? {
          OutcomeMatchesToken(Run(polled, p.during), g, polls[1..]);
        }
      }
    }
  }

  // The steps of other tasks up to the moment the outcome is decided.
  function Taken<R>(w: World, g: Guard, polls: seq<Poll<R>>): seq<Step>
    decreases polls
  {
    if polls == [] then []
    else
      var p := polls[0];
      var polled := Run(w, p.before);
      if g.token in polled.fired then p.before
      else
        var steps := p.before + p.during;
        if p.worker.Ready? then steps else steps + Taken(Run(polled, p.during), g, polls[1..])
  }

  lemma {:induction false} RunConcat(w: World, a: seq<Step>, b: seq<Step>)
    ensures Run(w, a + b) == Run(Run(w, a), b)
    decreases b
  {
    if b == [] {
      assert a + b == a;
    } else {
      hide Apply;
      RunConcat(w, a, b[..|b| - 1]);
      InitOfConcat(a, b);
    }
  }

  lemma {:induction false} DecidedIsRun<R>(w: World, g: Guard, polls: seq<Poll<R>>)
    ensures Outcome(w, g, polls).0 == Run(w, Taken(w, g, polls))
    decreases polls
  {
    hide Run;
    if polls == [] {
      RunNothing(w);
    } else {
      var p := polls[0];
      RunConcat(w, p.before, p.during);
      var ran := Run(Run(w, p.before), p.during);
      DecidedIsRun(ran, g, polls[1..]);
      RunConcat(w, p.before + p.during, Taken(ran, g, polls[1..]));
    }
  }

  lemma RunNothing(w: World)
    ensures Run(w, []) == w
  {
  }

  // The steps of other tasks during some polls.
  function Steps<R>(polls: seq<Poll<R>>): seq<Step>
    decreases polls
  {
    if polls == [] then [] else polls[0].before + polls[0].during + Steps(polls[1..])
  }

  ghost predicate AllPending<R>(polls: seq<Poll<R>>) {
    forall i :: 0 <= i < |polls| ==> polls[i].worker.Pending?
  }

  // Pending polls at whose end the token is not cancelled are passed over.
  lemma {:induction false} PassesOver<R>(w: World, g: Guard, polls: seq<Poll<R>>, rest: seq<Poll<R>>)
    requires AllPending(polls) && g.token !in Run(w, Steps(polls)).fired
    ensures Outcome(w, g, polls + rest) == Outcome(Run(w, Steps(polls)), g, rest)
    decreases polls
  {
    hide Run;
    if polls == [] {
      RunNothing(w);
      assert polls + rest == rest;
    } else {
      var p := polls[0];
      var later := Steps(polls[1..]);
      RunConcat(w, p.before + p.during, later);
      RunConcat(w, p.before, p.during);
      var ran := Run(Run(w, p.before), p.during);
      if g.token in Run(w, p.before).fired {
        FiredStays(Run(w, p.before), g.token, p.during);
        FiredStays(ran, g.token, later);
      }
      assert polls[0].worker.Pending?;
      assert (polls + rest)[0] == p && (polls + rest)[1..] == polls[1..] + rest;
      PassesOver(ran, g, polls[1..], rest);
    }
  }

  /**
   The first poll that finds the token cancelled or the worker ready decides: cancelled if the token is when the poll
   starts, or is by the time the worker is ready; completed with the worker's value otherwise. Without such a poll
   there is no outcome.
   */
  lemma FirstPollDecides<R>(w: World, g: Guard, pending: seq<Poll<R>>, p: Poll<R>, later: seq<Poll<R>>)
    requires AllPending(pending) && g.token !in Run(w, Steps(pending)).fired
    ensures Outcome(w, g, pending).1 == None
    ensures var start, out := Run(Run(w, Steps(pending)), p.before), Outcome(w, g, pending + ([p] + later)).1;
            && (g.token in start.fired ==> out == Some(Cancelled))
            && (g.token !in start.fired && p.worker.Ready? ==>
                  out == Some(if g.token in Run(start, p.during).fired then Cancelled else Completed(p.worker.value)))
  {
    PassesOver(w, g, pending, []);
    PassesOver(w, g, pending, [p] + later);
    assert pending + [] == pending;
    hide Run;
  }

  // The world `DispatchWithCancel` returns in once it has an outcome.
  function Returned<R>(w: World, g: Guard, polls: seq<Poll<R>>): World {
    Apply(Outcome(w, g, polls).0, Drop(g))
  }

  /**
   A dispatch that returns within a safe history leaves no mapping of its own, and takes nobody else's away: its
   drop changes the slots only by removing the one that holds its token.
   */
  lemma OwnMappingGone<R>(history: seq<Step>, g: Guard, polls: seq<Poll<R>>)
    requires var w := Run(EMPTY, history); g in w.live && Fair(w, g, polls) && Outcome(w, g, polls).1.Some?
    requires var steps := history + Taken(Run(EMPTY, history), g, polls);
             AllSafe(steps) && Registrations(steps) < EPOCHS
    ensures var w := Run(EMPTY, history);
            var decided, w' := Outcome(w, g, polls).0, Returned(w, g, polls);
            && g in decided.live && g !in w'.live
            && (g.id in w'.slots ==> w'.slots[g.id].token != g.token)
            && forall id :: id in decided.slots && decided.slots[id].token != g.token ==>
                 id in w'.slots && w'.slots[id] == decided.slots[id]
  {
    hide Run, Outcome, AllSafe, Fair, Taken, Registrations;
    var w := Run(EMPTY, history);
    var taken := Taken(w, g, polls);
    OutcomeMatchesToken(w, g, polls);
    DecidedIsRun(w, g, polls);
    RunConcat(EMPTY, history, taken);
    SafeRunsEvictNobody(history + taken, g);
  }

  /** Under the drop discipline the id is mapped on return exactly when another live guard of it remains. */
  lemma MappedOnReturnIff<R>(history: seq<Step>, g: Guard, polls: seq<Poll<R>>)
    requires var w := Run(EMPTY, history); g in w.live && Fair(w, g, polls) && Outcome(w, g, polls).1.Some?
    requires var steps := history + Taken(Run(EMPTY, history), g, polls) + [Drop(g)];
             AllOrderly(steps) && Registrations(steps) < EPOCHS
    ensures var w' := Returned(Run(EMPTY, history), g, polls);
            && (g.id in w'.slots <==> HasLiveGuard(w', g.id))
            && (g.id in w'.slots ==> w'.slots[g.id].token != g.token)
  {
    var w := Run(EMPTY, history);
    var taken := Taken(w, g, polls);
    var before, steps := history + taken, history + taken + [Drop(g)];
    assert steps[..|steps| - 1] == before;
    assert Run(EMPTY, steps) == Apply(Run(EMPTY, before), Drop(g));
    DecidedIsRun(w, g, polls);
    RunConcat(EMPTY, history, taken);
    hide Run, Outcome, AllSafe, Fair, Taken;
    OrderlyRunsAreSafe(steps);
    OrderlyRunsAreSafe(before);
    OwnMappingGone(history, g, polls);
  }
}
