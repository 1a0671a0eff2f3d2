/**
 The cancellation registry: per-id slots with epochs, guards that remove their slot when
 dropped, and what every interleaving of register, cancel and drop keeps.
 */
module CancelRegistry {
  import opened Basics

  type Id = nat
  type Token = nat

  // Epochs are u64 and wrap.
  const EPOCHS := 0x1_0000_0000_0000_0000

  datatype Entry = Entry(token: Token, epoch: nat)

  datatype Guard = Guard(id: Id, epoch: nat, token: Token)

  // Slots, cancelled tokens, the next fresh token, and the guards not dropped yet.
  datatype World = World(slots: map<Id, Entry>, fired: set<Token>, next: Token, live: set<Guard>)

  // `Fire` is a holder of a guard's token cancelling it directly.
  datatype Step = Register(id: Id) | Cancel(id: Id) | Drop(guard: Guard) | Fire(token: Token)

  const EMPTY := World(map[], {}, 0, {})

  function NextEpoch(slots: map<Id, Entry>, id: Id): nat {
    if id in slots then (slots[id].epoch + 1) % EPOCHS else 0
  }

  function NewGuard(w: World, id: Id): Guard {
    Guard(id, NextEpoch(w.slots, id), w.next)
  }

  function AfterDrop(slots: map<Id, Entry>, g: Guard): map<Id, Entry> {
    if g.id in slots && slots[g.id].epoch == g.epoch then slots - {g.id} else slots
  }

  function Apply(w: World, s: Step): World {
    match s
    case Register(id) =>
      var g := NewGuard(w, id);
      World(w.slots[id := Entry(g.token, g.epoch)], w.fired, w.next + 1, w.live + {g})
    case Cancel(id) =>
      if id in w.slots then w.(fired := w.fired + {w.slots[id].token}) else w
    case Drop(g) =>
      if g in w.live then w.(slots := AfterDrop(w.slots, g), live := w.live - {g}) else w
    case Fire(token) => if token < w.next then w.(fired := w.fired + {token}) else w
  }

  function Run(w: World, steps: seq<Step>): World
    decreases steps
  {
    if steps == [] then w else Apply(Run(w, steps[..|steps| - 1]), steps[|steps| - 1])
  }

  function Registrations(steps: seq<Step>): nat {
    if steps == [] then 0
    else Registrations(steps[..|steps| - 1]) + if steps[|steps| - 1].Register? then 1 else 0
  }

  /** The registry as the daemon shares it; `live` is bookkeeping for the statements below. */
  class Registry {
    var slots: map<Id, Entry>
    var fired: set<Token>
    var next: Token
    ghost var live: set<Guard>

    ghost function Current(): World
      reads this
    {
      World(slots, fired, next, live)
    }

    constructor ()
      ensures Current() == EMPTY
    {
      slots, fired, next, live := map[], {}, 0, {};
    }

    method Register(id: Id) returns (guard: Guard)
      modifies this
      ensures Current() == Apply(old(Current()), Step.Register(id))
      ensures guard == NewGuard(old(Current()), id)
    {
      var token := next;
      next := next + 1;
      var epoch := if id in slots then (slots[id].epoch + 1) % EPOCHS else 0;
      slots := slots[id := Entry(token, epoch)];
      guard := Guard(id, epoch, token);
      live := live + {guard};
    }

    method Cancel(id: Id) returns (cancelled: bool)
      modifies this`fired
      ensures Current() == Apply(old(Current()), Step.Cancel(id))
      ensures cancelled <==> id in slots
    {
      if id in slots {
        fired := fired + {slots[id].token};
        return true;
      }
      return false;
    }

    method Fire(token: Token)
      modifies this`fired
      ensures Current() == Apply(old(Current()), Step.Fire(token))
    {
      if token < next {
        fired := fired + {token};
      }
    }

    method DropGuard(guard: Guard)
      requires guard in live
      modifies this`slots, this`live
      ensures Current() == Apply(old(Current()), Step.Drop(guard))
    {
      if guard.id in slots && slots[guard.id].epoch == guard.epoch {
        slots := slots - {guard.id};
      }
      live := live - {guard};
    }
  }

  // ----- every interleaving -----

  // What holds after any steps at all.
  ghost predicate Wellformed(w: World) {
    && (forall t :: t in w.fired ==> t < w.next)
    && (forall g :: g in w.live ==> g.token < w.next)
    && (forall g, h :: g in w.live && h in w.live && g.token == h.token ==> g == h)
    && (forall id :: id in w.slots ==> w.slots[id].token < w.next)
  }

  // Position of the last registration of `id`, counting registrations from zero.
  function LastToken(steps: seq<Step>, id: Id): Option<Token> {
    if steps == [] then None
    else if steps[|steps| - 1] == Register(id) then Some(Registrations(steps[..|steps| - 1]))
    else LastToken(steps[..|steps| - 1], id)
  }

  /** After any run, tokens are fresh per registration and a mapped slot holds the newest one's token. */
  lemma {:induction false} SlotsHoldNewest(steps: seq<Step>)
    ensures Wellformed(Run(EMPTY, steps)) && Run(EMPTY, steps).next == Registrations(steps)
    ensures forall id :: id in Run(EMPTY, steps).slots ==>
              LastToken(steps, id) == Some(Run(EMPTY, steps).slots[id].token)
    decreases steps
  {
    if steps != [] {
      SlotsHoldNewest(steps[..|steps| - 1]);
    }
  }

  /** `cancel` answers whether the id is mapped, and cancels the newest registration's token and no other. */
  lemma CancelReachesNewestOnly(steps: seq<Step>, id: Id)
    ensures var w, w' := Run(EMPTY, steps), Run(EMPTY, steps + [Cancel(id)]);
            && w'.slots == w.slots && w'.live == w.live
            && (id in w.slots ==> LastToken(steps, id).Some? && w'.fired == w.fired + {LastToken(steps, id).value})
            && (id !in w.slots ==> w'.fired == w.fired)
  {
    SlotsHoldNewest(steps);
    assert (steps + [Cancel(id)])[..|steps|] == steps;
  }

  /** Cancelled tokens stay cancelled, and a registration's token is never already cancelled. */
  lemma {:induction false} CancellationIsPermanent(steps: seq<Step>, more: seq<Step>, id: Id)
    ensures Run(EMPTY, steps).fired <= Run(EMPTY, steps + more).fired
    ensures NewGuard(Run(EMPTY, steps), id).token !in Run(EMPTY, steps).fired
    decreases more
  {
    SlotsHoldNewest(steps);
    if more == [] {
      assert steps + more == steps;
    } else {
      CancellationIsPermanent(steps, more[..|more| - 1], id);
      InitOfConcat(steps, more);
    }
  }

  // ----- when a stale guard can evict a live slot -----

  // Dropping `g` would remove the slot of a different, newer registration.
  ghost predicate EvictsAnother(w: World, g: Guard) {
    && g in w.live && g.id in w.slots && w.slots[g.id].token != g.token
    && g.id !in Apply(w, Drop(g)).slots
  }

  ghost predicate HasLiveGuard(w: World, id: Id) {
    exists g :: g in w.live && g.id == id
  }

  // Registering `id` is safe when it does not restart the epoch under a live guard.
  ghost predicate SafeStep(w: World, s: Step) {
    s.Register? && s.id !in w.slots ==> !HasLiveGuard(w, s.id)
  }

  // Every step of a run from the empty registry is safe.
  ghost predicate AllSafe(steps: seq<Step>)
    decreases steps
  {
    steps != [] ==>
      var n := |steps| - 1;
      AllSafe(steps[..n]) && SafeStep(Run(EMPTY, steps[..n]), steps[n])
  }

  // The guard that owns a mapped slot is live.
  ghost predicate Owned(w: World) {
    forall id :: id in w.slots ==> Guard(id, w.slots[id].epoch, w.slots[id].token) in w.live
  }

  ghost predicate Bounded(w: World) {
    forall g :: g in w.live && g.id in w.slots ==> g.epoch <= w.slots[g.id].epoch
  }

  ghost predicate Distinct(w: World) {
    forall g, h :: g in w.live && h in w.live && g.id == h.id && g.epoch == h.epoch ==> g == h
  }

  // Distinct epochs per id, bounded by the slot's; `k` bounds every epoch.
  ghost predicate Ordered(w: World, k: nat) {
    Wellformed(w) && (forall g :: g in w.live ==> g.epoch < k) && Owned(w) && Bounded(w) && Distinct(w)
  }

  lemma SafeStepKeepsOrder(w: World, s: Step, k: nat)
    requires Ordered(w, k) && SafeStep(w, s) && k < EPOCHS
    ensures Ordered(Apply(w, s), if s.Register? then k + 1 else k)
  {
    match s
    case Register(id) => RegisterKeepsOrder(w, id, k);
    case Cancel(_) | Fire(_) =>
    case Drop(g) => DropKeepsOrder(w, g, k);
  }

  lemma StepKeepsWellformed(w: World, s: Step)
    requires Wellformed(w)
    ensures Wellformed(Apply(w, s))
  {
  }

  // The epoch of a safe registration is above those of the live guards of its id.
  lemma NewGuardIsNewest(w: World, id: Id, k: nat)
    requires Ordered(w, k) && SafeStep(w, Register(id)) && k < EPOCHS
    ensures NewGuard(w, id).epoch <= k
    ensures forall g :: g in w.live && g.id == id ==> g.epoch < NewGuard(w, id).epoch
  {
    hide Wellformed;
    if id in w.slots {
      assert Guard(id, w.slots[id].epoch, w.slots[id].token) in w.live;
    }
  }

  lemma AfterRegister(w: World, id: Id)
    ensures var mine, w' := NewGuard(w, id), Apply(w, Register(id));
            && mine.id == id && w'.live == w.live + {mine}
            && w'.slots == w.slots[id := Entry(mine.token, mine.epoch)]
  {
  }

  lemma RegisterKeepsOrder(w: World, id: Id, k: nat)
    requires Ordered(w, k) && SafeStep(w, Register(id)) && k < EPOCHS
    ensures Ordered(Apply(w, Register(id)), k + 1)
  {
    StepKeepsWellformed(w, Register(id));
    NewGuardIsNewest(w, id, k);
    AfterRegister(w, id);
    hide Wellformed, Apply, NewGuard, SafeStep;
    RegisterKeepsSlots(w, id);
    RegisterKeepsDistinct(w, id);
    hide Owned, Bounded, Distinct;
  }

  lemma RegisterKeepsSlots(w: World, id: Id)
    requires Owned(w) && Bounded(w)
    requires forall g :: g in w.live && g.id == id ==> g.epoch < NewGuard(w, id).epoch
    ensures Owned(Apply(w, Register(id))) && Bounded(Apply(w, Register(id)))
  {
    AfterRegister(w, id);
    hide Apply, NewGuard;
    var w' := Apply(w, Register(id));
    forall other | other in w'.slots
      ensures Guard(other, w'.slots[other].epoch, w'.slots[other].token) in w'.live
    {
      assert other != id ==> Guard(other, w.slots[other].epoch, w.slots[other].token) in w.live;
    }
  }

  lemma RegisterKeepsDistinct(w: World, id: Id)
    requires Distinct(w)
    requires forall g :: g in w.live && g.id == id ==> g.epoch < NewGuard(w, id).epoch
    ensures Distinct(Apply(w, Register(id)))
  {
    AfterRegister(w, id);
    hide Apply, NewGuard;
  }

  lemma DropKeepsOrder(w: World, g: Guard, k: nat)
    requires Ordered(w, k)
    ensures Ordered(Apply(w, Drop(g)), k)
  {
    var w' := Apply(w, Drop(g));
    forall id | id in w'.slots
      ensures Guard(id, w'.slots[id].epoch, w'.slots[id].token) in w'.live
    {
      assert Guard(id, w.slots[id].epoch, w.slots[id].token) in w.live;
    }
  }

  lemma {:induction false} SafeRunsAreOrdered(steps: seq<Step>)
    requires AllSafe(steps) && Registrations(steps) < EPOCHS
    ensures Ordered(Run(EMPTY, steps), Registrations(steps))
    decreases steps
  {
    if steps != [] {
      var n := |steps| - 1;
      SafeRunsAreOrdered(steps[..n]);
      SafeStepKeepsOrder(Run(EMPTY, steps[..n]), steps[n], Registrations(steps[..n]));
    }
  }

  /** In every safe run no drop evicts another registration: it removes its own slot or nothing. */
  lemma SafeRunsEvictNobody(steps: seq<Step>, g: Guard)
    requires AllSafe(steps) && Registrations(steps) < EPOCHS
    requires g in Run(EMPTY, steps).live
    ensures !EvictsAnother(Run(EMPTY, steps), g)
    ensures var w := Run(EMPTY, steps);
            Apply(w, Drop(g)).slots
            == if g.id in w.slots && w.slots[g.id].token == g.token then w.slots - {g.id} else w.slots
  {
    SafeRunsAreOrdered(steps);
  }

  function Repeat(id: Id, n: nat): (steps: seq<Step>)
    ensures |steps| == n
  {
    if n == 0 then [] else Repeat(id, n - 1) + [Register(id)]
  }

  lemma RepeatUnfold(w: World, id: Id, n: nat)
    ensures Run(w, Repeat(id, n + 1)) == Apply(Run(w, Repeat(id, n)), Register(id))
  {
    var steps := Repeat(id, n + 1);
    assert steps[..|steps| - 1] == Repeat(id, n);
  }

  lemma RepeatNothing(w: World, id: Id)
    ensures Run(w, Repeat(id, 0)) == w
  {
  }

  lemma {:induction false} RepeatedRegister(w: World, id: Id, n: nat)
    requires id !in w.slots && n < EPOCHS && Wellformed(w)
    ensures var w' := Run(w, Repeat(id, n + 1));
            && Wellformed(w') && w'.next == w.next + n + 1
            && id in w'.slots && w'.slots[id] == Entry(w.next + n, n) && w.live <= w'.live
    decreases n
  {
    hide Run, Repeat, Wellformed;
    var before := Run(w, Repeat(id, n));
    RepeatUnfold(w, id, n);
    if n == 0 {
      RepeatNothing(w, id);
    } else {
      RepeatedRegister(w, id, n - 1);
    }
    StepKeepsWellformed(before, Register(id));
  }

  /**
   Registering `id` is safe exactly when no number of further registrations of it, while epochs last, can let a
   guard that is live now evict a newer registration.
   */
  lemma SafeRegisterIff(w: World, id: Id, k: nat)
    requires Ordered(w, k) && 2 * k < EPOCHS
    ensures SafeStep(w, Register(id)) <==>
            forall n: nat, g :: 1 <= n && k + n < EPOCHS && g in w.live ==> !EvictsAnother(Run(w, Repeat(id, n)), g)
  {
    assert forall g :: g in w.live ==> g.token < w.next;
    hide Run, Repeat, Wellformed, EvictsAnother;
    if SafeStep(w, Register(id)) {
      hide Ordered, SafeStep;
      forall n: nat, g | 1 <= n && k + n < EPOCHS && g in w.live
        ensures !EvictsAnother(Run(w, Repeat(id, n)), g)
      {
        SafeRepeatStaysOrdered(w, id, k, n);
        OrderedEvictsNobody(Run(w, Repeat(id, n)), k + n, g);
      }
    } else {
      var g :| g in w.live && g.id == id;
      RepeatedRegister(w, id, g.epoch);
      EvictsNewer(Run(w, Repeat(id, g.epoch + 1)), g);
    }
  }

  lemma OrderedEvictsNobody(w: World, k: nat, g: Guard)
    requires Ordered(w, k)
    ensures !EvictsAnother(w, g)
  {
    hide Wellformed;
  }

  lemma EvictsNewer(w: World, g: Guard)
    requires g in w.live && g.id in w.slots && w.slots[g.id].epoch == g.epoch && w.slots[g.id].token != g.token
    ensures EvictsAnother(w, g)
  {
  }

  lemma {:induction false} SafeRepeatStaysOrdered(w: World, id: Id, k: nat, n: nat)
    requires Ordered(w, k) && k + n < EPOCHS && SafeStep(w, Register(id))
    ensures Ordered(Run(w, Repeat(id, n)), k + n)
    ensures n > 0 ==> id in Run(w, Repeat(id, n)).slots
    decreases n
  {
    hide Run, Repeat, Ordered, Apply;
    RepeatNothing(w, id);
    if n > 0 {
      SafeRepeatStaysOrdered(w, id, k, n - 1);
      RepeatUnfold(w, id, n - 1);
      var before := Run(w, Repeat(id, n - 1));
      AfterRegister(before, id);
      SafeStepKeepsOrder(before, Register(id), k + n - 1);
    }
  }

  /** Five events after which dropping the first guard evicts the third one's live slot. */
  lemma StaleGuardEvictsLiveSlot()
    ensures var g1, g2 := Guard(7, 0, 0), Guard(7, 1, 1);
            var steps := [Register(7), Register(7), Drop(g2), Register(7)];
            && EvictsAnother(Run(EMPTY, steps), g1)
            && Guard(7, 0, 2) in Run(EMPTY, steps + [Drop(g1)]).live
            && 7 !in Run(EMPTY, steps + [Drop(g1)]).slots
  {
    var g1, g2 := Guard(7, 0, 0), Guard(7, 1, 1);
    var steps := [Register(7), Register(7), Drop(g2), Register(7)];
    var w1 := Apply(EMPTY, Register(7));
    var w2 := Apply(w1, Register(7));
    var w3 := Apply(w2, Drop(g2));
    var w4 := Apply(w3, Register(7));
    assert w2.slots == map[7 := Entry(1, 1)] && w3.slots == map[];
    assert w4.slots == map[7 := Entry(2, 0)];
    assert steps[..3][..2][..1] == [Register(7)] && steps[..3][..2] == [Register(7), Register(7)];
    assert Run(EMPTY, [Register(7)]) == w1 by {
      assert [Register(7)][..0] == [];
    }
    assert Run(EMPTY, steps[..3][..2]) == w2;
    assert Run(EMPTY, steps[..3]) == w3;
    assert Run(EMPTY, steps) == w4;
    assert (steps + [Drop(g1)])[..4] == steps;
  }

  // ----- the drop discipline -----

  // The guard that owns the slot is dropped only when it is the last live guard of its id.
  ghost predicate OrderlyStep(w: World, s: Step) {
    s.Drop? && s.guard in w.live && s.guard.id in w.slots && w.slots[s.guard.id].token == s.guard.token ==>
      forall h :: h in w.live && h.id == s.guard.id ==> h == s.guard
  }

  ghost predicate AllOrderly(steps: seq<Step>)
    decreases steps
  {
    steps != [] ==>
      var n := |steps| - 1;
      AllOrderly(steps[..n]) && OrderlyStep(Run(EMPTY, steps[..n]), steps[n])
  }

  /** Under the drop discipline an id is unmapped exactly when it has no live guard, so every register is safe. */
  lemma {:induction false} OrderlyRunsAreSafe(steps: seq<Step>)
    requires AllOrderly(steps) && Registrations(steps) < EPOCHS
    ensures AllSafe(steps)
    ensures forall id :: id in Run(EMPTY, steps).slots <==> HasLiveGuard(Run(EMPTY, steps), id)
    decreases steps
  {
    if steps != [] {
      hide Ordered, SafeStep, OrderlyStep, Apply;
      var n := |steps| - 1;
      OrderlyRunsAreSafe(steps[..n]);
      SafeRunsAreOrdered(steps[..n]);
      OrderlyStepKeepsMapping(Run(EMPTY, steps[..n]), steps[n], Registrations(steps[..n]));
    }
  }

  lemma OrderlyStepKeepsMapping(w: World, s: Step, k: nat)
    requires Ordered(w, k) && OrderlyStep(w, s) && k < EPOCHS
    requires forall id :: id in w.slots <==> HasLiveGuard(w, id)
    ensures SafeStep(w, s)
    ensures forall id :: id in Apply(w, s).slots <==> HasLiveGuard(Apply(w, s), id)
  {
    hide Wellformed;
    var w' := Apply(w, s);
    forall id
      ensures id in w'.slots <==> HasLiveGuard(w', id)
    {
      assert id in w.slots ==> Guard(id, w.slots[id].epoch, w.slots[id].token) in w.live;
      if s.Register? && s.id == id {
        assert NewGuard(w, id) in w'.live;
      } else if g :| g in w'.live && g.id == id {
        assert g in w.live && HasLiveGuard(w, id);
      }
    }
  }
}
