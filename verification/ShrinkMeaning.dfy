/** The BF16 shrink pass preserves what the graph computes. */
module ShrinkMeaning {
  import opened Basics
  import opened OnnxGraph
  import opened ShrinkPass
  import Bf16

  // `env` and `narrowed` differ only in that the initializers `names` hold their BF16 rounding.
  ghost predicate Narrowing(rt: Runtime, names: set<string>, env: Env, narrowed: Env) {
    && narrowed.Keys == env.Keys
    && (forall n :: n in names ==> n in env && env[n].dtype == FLOAT)
    && forall n :: n in env ==> narrowed[n] == if n in names then CastTensor(rt, env[n]) else env[n]
  }

  // No NaN among the binary32 patterns.
  ghost predicate Numeric(t: Tensor) {
    forall i :: 0 <= i < |t.bits| ==> t.bits[i] < Bf16.TWO32 && !Bf16.IsNaN(t.bits[i])
  }

  ghost predicate DistinctNames(inits: seq<Initializer>) {
    forall j, l :: 0 <= j < l < |inits| ==> inits[j].name != inits[l].name
  }

  // Single assignment: every non-empty name is defined once, by the feed, an initializer or one node output.
  ghost predicate SingleAssignment(g: Graph, feed: set<string>) {
    && (forall j :: 0 <= j < |g.inits| ==> g.inits[j].name != "" && g.inits[j].name !in feed)
    && DistinctNames(g.inits)
    && (forall i, a, name, j :: IsOutput(g.nodes, i, a, name) && 0 <= j < |g.inits| ==> name != g.inits[j].name)
    && (forall i, a, name :: IsOutput(g.nodes, i, a, name) && name != "" ==> name !in feed)
    && (forall i, a, l, b, name :: IsOutput(g.nodes, i, a, name) && IsOutput(g.nodes, l, b, name) && name != "" ==>
          i == l && a == b)
  }

  ghost predicate IsOutput(nodes: seq<Node>, i: int, a: int, name: string) {
    0 <= i < |nodes| && 0 <= a < |nodes[i].outputs| && nodes[i].outputs[a] == name
  }

  // A Cast has one input and one (named) output.
  ghost predicate CastArity(nodes: seq<Node>) {
    forall i :: 0 <= i < |nodes| && nodes[i].op == "Cast" ==>
      |nodes[i].inputs| == 1 && |nodes[i].outputs| == 1 && nodes[i].outputs[0] != ""
  }

  // What converting the initializer `name` relies on.
  ghost predicate Convertible(nodes: seq<Node>, casts: set<int>, name: string) {
    && name != ""
    && (forall i, k :: Reads(nodes, i, k, name) ==> k == 0 && i in casts)
    && (forall i :: i in casts ==>
          && 0 <= i < |nodes| && IsCastToBf16(nodes[i])
          && nodes[i].inputs == [name] && |nodes[i].outputs| == 1 && nodes[i].outputs[0] != "")
    && (forall i, a :: IsOutput(nodes, i, a, name) ==> false)
    && (forall i, j, b :: i in casts && IsOutput(nodes, j, b, nodes[i].outputs[0]) ==> j == i)
  }

  // Old and new environments while both graphs run: same names; `name` holds t, respectively its
  // rounding w; every cast output already computed holds w.
  ghost predicate Sim(nodes: seq<Node>, casts: set<int>, name: string, t: Tensor, w: Tensor, env: Env, env': Env) {
    && env'.Keys == env.Keys
    && name in env && env[name] == t && env'[name] == w
    && (forall n :: n in env && n != name ==> env'[n] == env[n])
    && (forall n :: n in env && OutputOf(nodes, casts, n) ==> env[n] == w)
  }

  lemma {:induction false} BindSim(nodes: seq<Node>, casts: set<int>, name: string, t: Tensor, w: Tensor,
                                   env: Env, env': Env, outputs: seq<string>, values: seq<Tensor>)
    requires Sim(nodes, casts, name, t, w, env, env') && |outputs| == |values|
    requires forall a :: 0 <= a < |outputs| ==>
               outputs[a] != name && (outputs[a] != "" && OutputOf(nodes, casts, outputs[a]) ==> values[a] == w)
    ensures Sim(nodes, casts, name, t, w, Bind(env, outputs, values), Bind(env', outputs, values))
    decreases outputs
  {
    if outputs != [] && outputs[0] == "" {
      BindSim(nodes, casts, name, t, w, env, env', outputs[1..], values[1..]);
    } else if outputs != [] {
      BindSim(nodes, casts, name, t, w, env[outputs[0] := values[0]], env'[outputs[0] := values[0]], outputs[1..],
        values[1..]);
    }
  }

  // One node: wherever the old graph computes, the rewired graph computes the same values.
  lemma NodeSim(rt: Runtime, nodes: seq<Node>, casts: set<int>, name: string, t: Tensor, i: nat, env: Env, env': Env)
    requires i < |nodes| && Convertible(nodes, casts, name) && t.dtype == FLOAT
    requires Sim(nodes, casts, name, t, CastTensor(rt, t), env, env')
    requires RunNode(rt, nodes[i], env).Some?
    ensures var next, next' := RunNode(rt, nodes[i], env), RunNode(rt, Rewired(nodes, casts, name)[i], env');
            next'.Some? && Sim(nodes, casts, name, t, CastTensor(rt, t), next.value, next'.value)
  {
    hide CastTensor, FindAttribute, DropTo;
    var node, node', w := nodes[i], RewiredNode(nodes, casts, name, i), CastTensor(rt, t);
    var args := Arguments(node, env);
    if i in casts {
      CastNodeSim(rt, nodes, casts, name, t, i, env, env');
    } else {
      assert forall k :: 0 <= k < |node.inputs| ==> node.inputs[k] != name by {
        forall k | 0 <= k < |node.inputs|
          ensures node.inputs[k] != name
        {
          assert node.inputs[k] == name ==> Reads(nodes, i, k, name);
        }
      }
      assert !OutputOf(nodes, casts, "");
      assert InputsDefined(node', env');
      assert Arguments(node', env') == args;
      var values := Compute(rt, node, args).value;
      forall a | 0 <= a < |node.outputs|
        ensures node.outputs[a] != name && !OutputOf(nodes, casts, node.outputs[a])
      {
        assert IsOutput(nodes, i, a, node.outputs[a]);
      }
      BindSim(nodes, casts, name, t, w, env, env', node.outputs, values);
    }
  }

  // A converted cast: the old one rounds t, the new one copies its rounding.
  lemma CastNodeSim(rt: Runtime, nodes: seq<Node>, casts: set<int>, name: string, t: Tensor, i: nat, env: Env,
                    env': Env)
    requires i < |nodes| && i in casts && Convertible(nodes, casts, name) && t.dtype == FLOAT
    requires Sim(nodes, casts, name, t, CastTensor(rt, t), env, env')
    requires RunNode(rt, nodes[i], env).Some?
    ensures var next, next' := RunNode(rt, nodes[i], env), RunNode(rt, Rewired(nodes, casts, name)[i], env');
            next'.Some? && Sim(nodes, casts, name, t, CastTensor(rt, t), next.value, next'.value)
  {
    hide CastTensor, FindAttribute, DropTo;
    var node, node', w := nodes[i], RewiredNode(nodes, casts, name, i), CastTensor(rt, t);
    assert !OutputOf(nodes, casts, name) by {
      forall j | j in casts
        ensures nodes[j].outputs[0] != name
      {
        assert IsOutput(nodes, j, 0, nodes[j].outputs[0]);
      }
    }
    assert node'.inputs == [name];
    assert Arguments(node, env) == [Some(t)] && Arguments(node', env') == [Some(w)];
    assert node.outputs == node'.outputs == [node.outputs[0]];
    assert node.outputs[0] != name by {
      assert IsOutput(nodes, i, 0, node.outputs[0]);
    }
    BindSim(nodes, casts, name, t, w, env, env', node.outputs, [w]);
  }

  lemma {:induction false} RunSim(rt: Runtime, nodes: seq<Node>, casts: set<int>, name: string, t: Tensor,
                                  i: nat, env: Env, env': Env)
    requires i <= |nodes| && Convertible(nodes, casts, name) && t.dtype == FLOAT
    requires Sim(nodes, casts, name, t, CastTensor(rt, t), env, env')
    requires RunFrom(rt, nodes, i, env).Some?
    ensures var end, end' := RunFrom(rt, nodes, i, env), RunFrom(rt, Rewired(nodes, casts, name), i, env');
            end'.Some? && Sim(nodes, casts, name, t, CastTensor(rt, t), end.value, end'.value)
    decreases |nodes| - i
  {
    hide Sim, Convertible, CastTensor, RunNode, Rewired;
    if i < |nodes| {
      NodeSim(rt, nodes, casts, name, t, i, env, env');
      RunSim(rt, nodes, casts, name, t, i + 1, RunNode(rt, nodes[i], env).value,
             RunNode(rt, Rewired(nodes, casts, name)[i], env').value);
    }
  }

  // ----- initial environments -----

  lemma {:induction false} InitialEnvLookup(inits: seq<Initializer>, feed: Env)
    requires DistinctNames(inits)
    ensures forall n :: n in InitialEnv(inits, feed) <==> n in feed || exists x :: x in inits && x.name == n
    ensures forall x :: x in inits ==> x.name in InitialEnv(inits, feed) && InitialEnv(inits, feed)[x.name] == x.tensor
    ensures forall n :: n in feed && (forall x :: x in inits ==> x.name != n) ==> InitialEnv(inits, feed)[n] == feed[n]
  {
    if inits != [] {
      var n := |inits| - 1;
      InitialEnvLookup(inits[..n], feed);
      assert inits == inits[..n] + [inits[n]];
    }
  }

  lemma {:induction false} RemoveFirstFacts(inits: seq<Initializer>, init: Initializer)
    requires DistinctNames(inits) && init in inits
    ensures DistinctNames(RemoveFirst(inits, init))
    ensures forall x :: x in RemoveFirst(inits, init) <==> x in inits && x != init
  {
    assert inits == [inits[0]] + inits[1..];
    if inits[0] != init {
      RemoveFirstFacts(inits[1..], init);
      var rest := RemoveFirst(inits[1..], init);
      assert forall x :: x in rest ==> x in inits[1..];
      forall j | 0 <= j < |rest|
        ensures rest[j].name != inits[0].name
      {
        assert rest[j] in inits[1..];
      }
    }
  }

  ghost function NewInits(inits: seq<Initializer>, init: Initializer): seq<Initializer> {
    RemoveFirst(inits, init) + [NarrowInit(init)]
  }

  // Swapping one initializer for its narrowed form keeps the names and their distinctness.
  lemma NewInitsFacts(inits: seq<Initializer>, init: Initializer)
    requires DistinctNames(inits) && init in inits
    ensures DistinctNames(NewInits(inits, init))
    ensures forall x :: x in NewInits(inits, init) <==> (x in inits && x != init) || x == NarrowInit(init)
    ensures forall x :: x in inits && x != init ==> x.name != init.name
  {
    RemoveFirstFacts(inits, init);
    var rest := RemoveFirst(inits, init);
    forall x | x in inits && x != init
      ensures x.name != init.name
    {
      var j, l :| 0 <= j < |inits| && 0 <= l < |inits| && inits[j] == x && inits[l] == init;
    }
    forall j | 0 <= j < |rest|
      ensures rest[j].name != init.name
    {
      assert rest[j] in rest;
    }
  }

  lemma InitialSim(nodes: seq<Node>, casts: set<int>, inits: seq<Initializer>, init: Initializer, feed: Env)
    requires DistinctNames(inits) && init in inits && init.name !in feed
    requires forall n :: n in InitialEnv(inits, feed) ==> !OutputOf(nodes, casts, n)
    ensures Sim(nodes, casts, init.name, init.tensor, NarrowTensor(init.tensor),
                InitialEnv(inits, feed), InitialEnv(NewInits(inits, init), feed))
  {
    hide OutputOf, NarrowTensor, InitialEnv, RemoveFirst;
    NewInitsFacts(inits, init);
    InitialEnvLookup(inits, feed);
    InitialEnvLookup(NewInits(inits, init), feed);
    var news := NewInits(inits, init);
    assert NarrowInit(init) in news;
    var env, env' := InitialEnv(inits, feed), InitialEnv(news, feed);
    forall n
      ensures n in env <==> n in env'
    {
      if x :| x in inits && x.name == n {
        assert x in news || NarrowInit(init).name == n;
      }
      if x :| x in news && x.name == n {
        assert x in inits || init.name == n;
      }
    }
    forall n | n in env && n != init.name
      ensures env'[n] == env[n]
    {
      if x :| x in inits && x.name == n {
        assert x in news;
      } else {
        assert forall x :: x in news ==> x.name != n;
      }
    }
  }

  // The runtime's Cast gives what the pass stores.
  ghost predicate CastAgrees(rt: Runtime, t: Tensor) {
    forall i :: 0 <= i < |t.bits| ==> rt.cast(t.bits[i]) == Bf16.Narrow(t.bits[i])
  }

  lemma NarrowIsCastIff(rt: Runtime, t: Tensor)
    ensures NarrowTensor(t) == CastTensor(rt, t) <==> CastAgrees(rt, t)
  {
    if NarrowTensor(t) == CastTensor(rt, t) {
      forall i | 0 <= i < |t.bits|
        ensures rt.cast(t.bits[i]) == Bf16.Narrow(t.bits[i])
      {
        assert NarrowTensor(t).bits[i] == CastTensor(rt, t).bits[i];
      }
    }
  }

  /** It does where the Cast rounds as IEEE 754 says and no pattern is a NaN. */
  lemma NumericAgrees(rt: Runtime, t: Tensor)
    requires CastRounds(rt) && Numeric(t)
    ensures CastAgrees(rt, t)
  {
    forall i | 0 <= i < |t.bits|
      ensures Bf16.Narrow(t.bits[i]) == rt.cast(t.bits[i])
    {
      Bf16.RoundingIsUnique(t.bits[i], rt.cast(t.bits[i]));
    }
  }

  // ----- one conversion -----

  // The work list still describes the current graph: its initializers are there, and the nodes
  // that read them are as they were.
  ghost predicate Current(orig: seq<Node>, g: Graph, todo: seq<Initializer>) {
    && |orig| == |g.nodes|
    && DistinctNames(todo)
    && (forall x :: x in todo ==> x in g.inits)
    && (forall x, i, k :: x in todo && Reads(g.nodes, i, k, x.name) ==> Reads(orig, i, k, x.name))
    && (forall x, i, k :: x in todo && Reads(orig, i, k, x.name) ==>
          Reads(g.nodes, i, k, x.name) && (IsCastToBf16(orig[i]) <==> IsCastToBf16(g.nodes[i])))
  }

  lemma EligibleIsConvertible(orig: seq<Node>, g: Graph, init: Initializer, todo: seq<Initializer>, feed: set<string>)
    requires SingleAssignment(g, feed) && CastArity(g.nodes) && Current(orig, g, todo) && init in todo
    requires Eligible(orig, g.nodes, init)
    ensures Convertible(g.nodes, Readers(orig, init.name), init.name)
  {
    hide FindAttribute;
    var casts := Readers(orig, init.name);
    forall i | i in casts
      ensures IsCastToBf16(g.nodes[i]) && g.nodes[i].inputs == [init.name]
    {
      assert Reads(orig, i, 0, init.name);
    }
    forall i, j, b | i in casts && IsOutput(g.nodes, j, b, g.nodes[i].outputs[0])
      ensures j == i
    {
      assert IsOutput(g.nodes, i, 0, g.nodes[i].outputs[0]);
    }
  }

  // Conversion keeps single assignment, arities, and what the rest of the work list relies on.
  lemma ShrinkOneKeeps(orig: seq<Node>, g: Graph, todo: seq<Initializer>, feed: set<string>)
    requires SingleAssignment(g, feed) && CastArity(g.nodes) && Current(orig, g, todo) && todo != []
    ensures var g' := ShrinkOne(orig, g, todo[0]);
            SingleAssignment(g', feed) && CastArity(g'.nodes) && Current(orig, g', todo[1..])
  {
    hide FindAttribute, RemoveFirst, DropTo, NarrowTensor;
    var init, g', rest := todo[0], ShrinkOne(orig, g, todo[0]), todo[1..];
    assert todo == [init] + rest;
    if Eligible(orig, g.nodes, init) {
      var casts := Readers(orig, init.name);
      EligibleIsConvertible(orig, g, init, todo, feed);
      NewInitsFacts(g.inits, init);
      assert g'.inits == NewInits(g.inits, init);
      forall j | 0 <= j < |g'.inits|
        ensures exists l :: 0 <= l < |g.inits| && g'.inits[j].name == g.inits[l].name
      {
        assert g'.inits[j] in g'.inits;
        assert init in g.inits;
      }
      assert forall i, a, name :: IsOutput(g'.nodes, i, a, name) <==> IsOutput(g.nodes, i, a, name);
      RewiringKeepsOthers(g.nodes, casts, init.name, rest, g.inits);
      forall x | x in rest
        ensures x in g'.inits
      {
        assert x.name != init.name;
      }
    }
  }

  // Readers of the other initializers are not touched by a conversion.
  lemma RewiringKeepsOthers(nodes: seq<Node>, casts: set<int>, name: string, rest: seq<Initializer>,
                            inits: seq<Initializer>)
    requires Convertible(nodes, casts, name)
    requires forall x :: x in rest ==> x in inits && x.name != name
    requires forall i, a, n, j :: IsOutput(nodes, i, a, n) && 0 <= j < |inits| ==> n != inits[j].name
    ensures forall x, i, k :: x in rest ==>
            (Reads(Rewired(nodes, casts, name), i, k, x.name) <==> Reads(nodes, i, k, x.name))
    ensures forall x, i, k :: x in rest && Reads(nodes, i, k, x.name) ==>
              (IsCastToBf16(Rewired(nodes, casts, name)[i]) <==> IsCastToBf16(nodes[i]))
  {
    hide FindAttribute, DropTo;
    forall x | x in rest
      ensures !OutputOf(nodes, casts, x.name)
    {
      forall i | i in casts
        ensures nodes[i].outputs[0] != x.name
      {
        assert IsOutput(nodes, i, 0, nodes[i].outputs[0]);
      }
    }
  }

  // Converting one initializer preserves the run, up to the narrowing of that initializer.
  lemma ShrinkOneSim(rt: Runtime, orig: seq<Node>, g: Graph, todo: seq<Initializer>, feed: Env)
    requires SingleAssignment(g, feed.Keys) && CastArity(g.nodes) && Current(orig, g, todo) && todo != []
    requires Eligible(orig, g.nodes, todo[0]) && CastAgrees(rt, todo[0].tensor)
    requires Run(rt, g.inits, g.nodes, feed).Some?
    ensures var g' := ShrinkOne(orig, g, todo[0]);
            && Run(rt, g'.inits, g'.nodes, feed).Some?
            && Narrowing(rt, {todo[0].name}, Run(rt, g.inits, g.nodes, feed).value,
               Run(rt, g'.inits, g'.nodes, feed).value)
  {
    hide FindAttribute, RemoveFirst, DropTo, NarrowTensor, CastTensor, CastAgrees, Rewired, InitialEnv,
      RunFrom, CastArity;
    var init := todo[0];
    var casts := Readers(orig, init.name);
    EligibleIsConvertible(orig, g, init, todo, feed.Keys);
    NarrowIsCastIff(rt, init.tensor);
    InitialEnvLookup(g.inits, feed);
    forall n | n in InitialEnv(g.inits, feed)
      ensures !OutputOf(g.nodes, casts, n)
    {
      forall i | i in casts
        ensures g.nodes[i].outputs[0] != n
      {
        assert IsOutput(g.nodes, i, 0, g.nodes[i].outputs[0]);
      }
    }
    InitialSim(g.nodes, casts, g.inits, init, feed);
    RunSim(rt, g.nodes, casts, init.name, init.tensor, 0,
           InitialEnv(g.inits, feed), InitialEnv(NewInits(g.inits, init), feed));
  }

  // ----- the whole pass -----

  // The initializers the pass converts, read off the input graph.
  ghost function EligibleNames(g: Graph): set<string> {
    set x | x in g.inits && Eligible(g.nodes, g.nodes, x) :: x.name
  }

  lemma EligibilityIsStable(orig: seq<Node>, g: Graph, todo: seq<Initializer>, x: Initializer)
    requires Current(orig, g, todo) && x in todo
    ensures Eligible(orig, g.nodes, x) <==> Eligible(orig, orig, x)
  {
    hide FindAttribute, IsCastToBf16;
  }

  lemma {:induction false} ConvertedAreEligible(orig: seq<Node>, g: Graph, todo: seq<Initializer>, feed: set<string>)
    requires SingleAssignment(g, feed) && CastArity(g.nodes) && Current(orig, g, todo)
    ensures forall n ::
              n in ConvertedNames(orig, g, todo) <==> exists x :: x in todo && Eligible(orig, orig, x) && x.name == n
    decreases todo
  {
    hide SingleAssignment, CastArity, Eligible, ShrinkOne, Reads;
    if todo != [] {
      var g' := ShrinkOne(orig, g, todo[0]);
      ShrinkOneKeeps(orig, g, todo, feed);
      ConvertedAreEligible(orig, g', todo[1..], feed);
      EligibilityIsStable(orig, g, todo, todo[0]);
      assert todo == [todo[0]] + todo[1..];
    }
  }

  lemma NarrowingComposes(rt: Runtime, x: string, names: set<string>, a: Env, b: Env, c: Env)
    requires Narrowing(rt, {x}, a, b) && Narrowing(rt, names, b, c) && x !in names
    ensures Narrowing(rt, {x} + names, a, c)
  {
    hide CastTensor;
  }

  ghost function Converted(orig: seq<Node>, g: Graph, todo: seq<Initializer>): set<string>
    requires |orig| == |g.nodes|
  {
    set n | n in ConvertedNames(orig, g, todo)
  }

  lemma {:induction false} ShrinkListSim(rt: Runtime, orig: seq<Node>, g: Graph, todo: seq<Initializer>, feed: Env)
    requires SingleAssignment(g, feed.Keys) && CastArity(g.nodes) && Current(orig, g, todo)
    requires forall x :: x in todo && Eligible(orig, orig, x) ==> CastAgrees(rt, x.tensor)
    requires Run(rt, g.inits, g.nodes, feed).Some?
    ensures var g' := ShrinkList(orig, g, todo);
            && SingleAssignment(g', feed.Keys)
            && Run(rt, g'.inits, g'.nodes, feed).Some?
            && Narrowing(rt, Converted(orig, g, todo),
                         Run(rt, g.inits, g.nodes, feed).value, Run(rt, g'.inits, g'.nodes, feed).value)
    decreases todo
  {
    hide SingleAssignment, CastArity, Eligible, ShrinkOne, Run, CastAgrees, Narrowing;
    if todo == [] {
      NarrowingNothing(rt, orig, g, Run(rt, g.inits, g.nodes, feed).value);
    } else {
      var g1, rest := ShrinkOne(orig, g, todo[0]), todo[1..];
      assert todo == [todo[0]] + rest;
      ConvertedUnfold(orig, g, todo);
      hide Converted;
      ShrinkOneKeeps(orig, g, todo, feed.Keys);
      EligibilityIsStable(orig, g, todo, todo[0]);
      var later := Converted(orig, g1, rest);
      if Eligible(orig, g.nodes, todo[0]) {
        ShrinkOneSim(rt, orig, g, todo, feed);
        ShrinkListSim(rt, orig, g1, rest, feed);
        assert todo[0].name !in later by {
          NotConvertedAgain(orig, g, todo, feed.Keys);
        }
        NarrowingComposes(rt, todo[0].name, later, Run(rt, g.inits, g.nodes, feed).value,
                          Run(rt, g1.inits, g1.nodes, feed).value,
                          Run(rt, ShrinkList(orig, g, todo).inits, ShrinkList(orig, g, todo).nodes, feed).value);
      } else {
        assert g1 == g by {
          NotEligibleUnchanged(orig, g, todo[0]);
        }
        ShrinkListSim(rt, orig, g1, rest, feed);
        assert {} + later == later;
      }
    }
  }

  lemma NarrowingNothing(rt: Runtime, orig: seq<Node>, g: Graph, env: Env)
    requires |orig| == |g.nodes|
    ensures Narrowing(rt, Converted(orig, g, []), env, env)
  {
  }

  lemma ConvertedUnfold(orig: seq<Node>, g: Graph, todo: seq<Initializer>)
    requires |orig| == |g.nodes| && todo != []
    ensures Converted(orig, g, todo)
         == (if Eligible(orig, g.nodes, todo[0]) then {todo[0].name} else {})
            + Converted(orig, ShrinkOne(orig, g, todo[0]), todo[1..])
  {
    var rest := ConvertedNames(orig, ShrinkOne(orig, g, todo[0]), todo[1..]);
    if Eligible(orig, g.nodes, todo[0]) {
      assert ConvertedNames(orig, g, todo) == [todo[0].name] + rest;
    } else {
      assert ConvertedNames(orig, g, todo) == rest;
    }
    hide ConvertedNames, Eligible, ShrinkOne;
  }

  lemma NotConvertedAgain(orig: seq<Node>, g: Graph, todo: seq<Initializer>, feed: set<string>)
    requires SingleAssignment(g, feed) && CastArity(g.nodes) && Current(orig, g, todo) && todo != []
    ensures |orig| == |ShrinkOne(orig, g, todo[0]).nodes|
    ensures todo[0].name !in Converted(orig, ShrinkOne(orig, g, todo[0]), todo[1..])
  {
    ShrinkOneKeeps(orig, g, todo, feed);
    ConvertedAreEligible(orig, ShrinkOne(orig, g, todo[0]), todo[1..], feed);
    hide SingleAssignment, CastArity, Eligible, ShrinkOne, ConvertedNames;
  }

  lemma NotEligibleUnchanged(orig: seq<Node>, g: Graph, init: Initializer)
    requires |orig| == |g.nodes| && !Eligible(orig, g.nodes, init)
    ensures ShrinkOne(orig, g, init) == g
  {
  }

  /**
   Wherever the graph runs and the Cast agrees on what is converted, the shrunk graph runs too (every input is
   still defined, in list order) and computes the same value for every name, except that converted initializers
   hold their rounding.
   */
  lemma ShrinkPreservesMeaning(rt: Runtime, g: Graph, feed: Env)
    requires SingleAssignment(g, feed.Keys) && CastArity(g.nodes)
    requires forall x :: x in g.inits && Eligible(g.nodes, g.nodes, x) ==> CastAgrees(rt, x.tensor)
    requires Run(rt, g.inits, g.nodes, feed).Some?
    ensures SingleAssignment(Shrink(g), feed.Keys)
    ensures Run(rt, Shrink(g).inits, Shrink(g).nodes, feed).Some?
    ensures Narrowing(rt, EligibleNames(g), Run(rt, g.inits, g.nodes, feed).value,
                      Run(rt, Shrink(g).inits, Shrink(g).nodes, feed).value)
  {
    hide CastArity, Eligible, Run, CastAgrees, ShrinkList;
    ShrinkListSim(rt, g.nodes, g, g.inits, feed);
    ConvertedAreEligible(g.nodes, g, g.inits, feed.Keys);
    assert Converted(g.nodes, g, g.inits) == EligibleNames(g);
  }

  /** Graph outputs keep their values exactly when no converted initializer is one of them. */
  lemma OutputsPreservedIff(rt: Runtime, g: Graph, feed: Env, outputs: set<string>)
    requires SingleAssignment(g, feed.Keys) && CastArity(g.nodes)
    requires forall x :: x in g.inits && Eligible(g.nodes, g.nodes, x) ==> CastAgrees(rt, x.tensor)
    requires Run(rt, g.inits, g.nodes, feed).Some? && outputs <= Run(rt, g.inits, g.nodes, feed).value.Keys
    ensures var before, after := Run(rt, g.inits, g.nodes, feed).value, Run(rt, Shrink(g).inits, Shrink(g).nodes, feed);
            && after.Some? && after.value.Keys == before.Keys
            && ((forall o :: o in outputs ==> after.value[o] == before[o]) <==> outputs !! EligibleNames(g))
  {
    hide SingleAssignment, CastArity, Eligible, EligibleNames, Run, CastAgrees, Shrink;
    ShrinkPreservesMeaning(rt, g, feed);
    var before, after := Run(rt, g.inits, g.nodes, feed).value, Run(rt, Shrink(g).inits, Shrink(g).nodes, feed).value;
    forall o | o in outputs && o in EligibleNames(g)
      ensures after[o] != before[o]
    {
      assert after[o] == CastTensor(rt, before[o]);
    }
  }

  // ----- the converse: what the shrunk graph computes for a cast -----

  lemma {:induction false} BindKeeps(env: Env, outputs: seq<string>, values: seq<Tensor>, n: string)
    requires |outputs| == |values| && n in env && n !in outputs
    ensures n in Bind(env, outputs, values) && Bind(env, outputs, values)[n] == env[n]
    decreases outputs
  {
    if outputs != [] {
      assert outputs[0] in outputs && forall o :: o in outputs[1..] ==> o in outputs;
      BindKeeps(if outputs[0] == "" then env else env[outputs[0] := values[0]], outputs[1..], values[1..], n);
    }
  }

  lemma BindOne(env: Env, o: string, values: seq<Tensor>)
    requires |values| == 1 && o != ""
    ensures Bind(env, [o], values) == env[o := values[0]]
  {
    assert [o][1..] == [] && values[1..] == [];
  }

  lemma NotAnOutput(nodes: seq<Node>, i: nat, n: string)
    requires i < |nodes| && forall a :: !IsOutput(nodes, i, a, n)
    ensures n !in nodes[i].outputs
  {
    forall a | 0 <= a < |nodes[i].outputs|
      ensures nodes[i].outputs[a] != n
    {
      assert !IsOutput(nodes, i, a, n);
    }
  }

  // A defined name keeps its value when no later node outputs it.
  lemma {:induction false} RunKeeps(rt: Runtime, nodes: seq<Node>, i: nat, env: Env, n: string)
    requires i <= |nodes| && n in env && RunFrom(rt, nodes, i, env).Some?
    requires forall j, a :: i <= j ==> !IsOutput(nodes, j, a, n)
    ensures n in RunFrom(rt, nodes, i, env).value && RunFrom(rt, nodes, i, env).value[n] == env[n]
    decreases |nodes| - i
  {
    if i < |nodes| {
      var next := RunNode(rt, nodes[i], env).value;
      NotAnOutput(nodes, i, n);
      BindKeeps(env, nodes[i].outputs, Compute(rt, nodes[i], Arguments(nodes[i], env)).value, n);
      RunKeeps(rt, nodes, i + 1, next, n);
    }
  }

  // What a node with one input, which no node outputs, and one output gives.
  lemma {:induction false} ValueOf(rt: Runtime, nodes: seq<Node>, j: nat, env: Env, i: nat, a: string, o: string)
    requires j <= i < |nodes| && a != "" && a in env && RunFrom(rt, nodes, j, env).Some?
    requires nodes[i].inputs == [a] && nodes[i].outputs == [o] && o != ""
    requires forall l, b :: !IsOutput(nodes, l, b, a)
    requires forall l, b :: IsOutput(nodes, l, b, o) ==> l == i
    ensures var v := Compute(rt, nodes[i], [Some(env[a])]);
            && v.Some? && |v.value| == 1
            && o in RunFrom(rt, nodes, j, env).value && RunFrom(rt, nodes, j, env).value[o] == v.value[0]
    decreases i - j
  {
    var next := RunNode(rt, nodes[j], env).value;
    if j == i {
      assert Arguments(nodes[i], env) == [Some(env[a])];
      BindOne(env, o, Compute(rt, nodes[i], [Some(env[a])]).value);
      RunKeeps(rt, nodes, i + 1, next, o);
    } else {
      NotAnOutput(nodes, j, a);
      BindKeeps(env, nodes[j].outputs, Compute(rt, nodes[j], Arguments(nodes[j], env)).value, a);
      hide Compute, RunNode;
      ValueOf(rt, nodes, j + 1, next, i, a, o);
    }
  }

  // The value of a node whose one input is an initializer.
  lemma ValueFromInitializer(rt: Runtime, g: Graph, feed: Env, x: Initializer, i: nat, o: string)
    requires SingleAssignment(g, feed.Keys) && x in g.inits && Run(rt, g.inits, g.nodes, feed).Some?
    requires i < |g.nodes| && g.nodes[i].inputs == [x.name] && g.nodes[i].outputs == [o] && o != ""
    ensures var v, end := Compute(rt, g.nodes[i], [Some(x.tensor)]), Run(rt, g.inits, g.nodes, feed).value;
            v.Some? && |v.value| == 1 && o in end && end[o] == v.value[0]
  {
    InitialEnvLookup(g.inits, feed);
    var j :| 0 <= j < |g.inits| && g.inits[j] == x;
    assert IsOutput(g.nodes, i, 0, o);
    hide Compute, RunFrom, InitialEnv;
    ValueOf(rt, g.nodes, 0, InitialEnv(g.inits, feed), i, x.name, o);
  }

  // Node i has become the identity on the narrowed initializer x.
  ghost predicate Turned(g: Graph, i: nat, x: Initializer, cast: Node) {
    && NarrowInit(x) in g.inits
    && i < |g.nodes| && g.nodes[i] == Node("Identity", DropTo(cast.attrs), [x.name], cast.outputs)
  }

  lemma TurnedStays(orig: seq<Node>, g: Graph, todo: seq<Initializer>, feed: set<string>, i: nat, x: Initializer,
                    cast: Node)
    requires SingleAssignment(g, feed) && CastArity(g.nodes) && Current(orig, g, todo) && todo != []
    requires Turned(g, i, x, cast) && x.name != todo[0].name && !Reads(orig, i, 0, todo[0].name)
    ensures Turned(ShrinkOne(orig, g, todo[0]), i, x, cast)
  {
    hide FindAttribute, DropTo, NarrowTensor, RemoveFirst;
    var y := todo[0];
    if Eligible(orig, g.nodes, y) {
      var casts := Readers(orig, y.name);
      EligibleIsConvertible(orig, g, y, todo, feed);
      NewInitsFacts(g.inits, y);
      assert ShrinkOne(orig, g, y).inits == NewInits(g.inits, y);
      var j :| 0 <= j < |g.inits| && g.inits[j] == NarrowInit(x);
      assert !OutputOf(g.nodes, casts, x.name) by {
        forall l | l in casts
          ensures g.nodes[l].outputs[0] != x.name
        {
          assert IsOutput(g.nodes, l, 0, g.nodes[l].outputs[0]);
        }
      }
      assert i !in casts;
      assert RewiredNode(g.nodes, casts, y.name, i).inputs == [x.name];
    }
  }

  lemma TurnsCast(orig: seq<Node>, g: Graph, todo: seq<Initializer>, feed: set<string>, i: nat)
    requires SingleAssignment(g, feed) && CastArity(g.nodes) && Current(orig, g, todo) && todo != []
    requires Eligible(orig, g.nodes, todo[0]) && Reads(orig, i, 0, todo[0].name)
    ensures Turned(ShrinkOne(orig, g, todo[0]), i, todo[0], g.nodes[i])
  {
    hide FindAttribute, DropTo, NarrowTensor, RemoveFirst;
    var x := todo[0];
    var casts := Readers(orig, x.name);
    EligibleIsConvertible(orig, g, x, todo, feed);
    assert !OutputOf(g.nodes, casts, x.name) by {
      forall l | l in casts
        ensures g.nodes[l].outputs[0] != x.name
      {
        assert IsOutput(g.nodes, l, 0, g.nodes[l].outputs[0]);
      }
    }
    assert i in casts;
    assert RewiredNode(g.nodes, casts, x.name, i).inputs == [x.name];
  }

  // A conversion that does not read at node i leaves all but the names of its inputs.
  lemma NodeStays(orig: seq<Node>, g: Graph, x: Initializer, i: nat)
    requires |orig| == |g.nodes| && i < |g.nodes|
    ensures var before, after := g.nodes[i], ShrinkOne(orig, g, x).nodes[i];
            && after.outputs == before.outputs && |after.inputs| == |before.inputs|
            && (!Eligible(orig, g.nodes, x) || !Reads(orig, i, 0, x.name) ==>
                  after.op == before.op && after.attrs == before.attrs)
  {
    hide OutputOf, DropTo, Eligible;
  }

  // Once the pass is through with x, its cast is turned.
  lemma {:induction false} StaysTurned(orig: seq<Node>, g: Graph, todo: seq<Initializer>, feed: set<string>, i: nat,
                                       x: Initializer, cast: Node)
    requires SingleAssignment(g, feed) && CastArity(g.nodes) && Current(orig, g, todo)
    requires Turned(g, i, x, cast) && forall y :: y in todo ==> y.name != x.name && !Reads(orig, i, 0, y.name)
    ensures Turned(ShrinkList(orig, g, todo), i, x, cast)
    decreases todo
  {
    if todo != [] {
      assert todo[0] in todo && forall y :: y in todo[1..] ==> y in todo;
      ShrinkOneKeeps(orig, g, todo, feed);
      TurnedStays(orig, g, todo, feed, i, x, cast);
      hide SingleAssignment, CastArity, Current, Turned, ShrinkOne, Reads;
      StaysTurned(orig, ShrinkOne(orig, g, todo[0]), todo[1..], feed, i, x, cast);
    }
  }

  lemma {:induction false} CastIsTurned(orig: seq<Node>, g: Graph, todo: seq<Initializer>, feed: set<string>, i: nat,
                                        x: Initializer)
    requires SingleAssignment(g, feed) && CastArity(g.nodes) && Current(orig, g, todo)
    requires x in todo && Eligible(orig, orig, x) && i < |orig| && orig[i].inputs == [x.name]
    ensures Turned(ShrinkList(orig, g, todo), i, x, g.nodes[i])
    decreases todo
  {
    var g1, rest := ShrinkOne(orig, g, todo[0]), todo[1..];
    ShrinkOneKeeps(orig, g, todo, feed);
    EligibilityIsStable(orig, g, todo, x);
    assert Reads(orig, i, 0, x.name);
    assert todo == [todo[0]] + rest;
    if todo[0] == x {
      TurnsCast(orig, g, todo, feed, i);
      forall y | y in rest
        ensures y.name != x.name && !Reads(orig, i, 0, y.name)
      {
        var k :| 0 <= k < |rest| && rest[k] == y;
        assert todo[k + 1] == y;
      }
      hide SingleAssignment, CastArity, Current, Turned, ShrinkOne, Eligible;
      StaysTurned(orig, g1, rest, feed, i, x, g.nodes[i]);
    } else {
      NodeStays(orig, g, todo[0], i);
      assert !Reads(orig, i, 0, todo[0].name);
      hide SingleAssignment, CastArity, Current, Turned, ShrinkOne, Eligible;
      CastIsTurned(orig, g1, rest, feed, i, x);
    }
  }

  // Every name but the converted initializers has its value in the shrunk graph too.
  ghost predicate OthersKeep(rt: Runtime, g: Graph, feed: Env) {
    var before, after := Run(rt, g.inits, g.nodes, feed), Run(rt, Shrink(g).inits, Shrink(g).nodes, feed);
    before.Some? && after.Some?
    && forall n :: n in before.value && n !in EligibleNames(g) ==> n in after.value && after.value[n] == before.value[n]
  }

  lemma KeptCastAgrees(rt: Runtime, g: Graph, feed: Env, x: Initializer)
    requires SingleAssignment(g, feed.Keys) && CastArity(g.nodes) && SingleAssignment(Shrink(g), feed.Keys)
    requires OthersKeep(rt, g, feed) && x in g.inits && Eligible(g.nodes, g.nodes, x)
    ensures CastAgrees(rt, x.tensor)
  {
    var i, k :| Reads(g.nodes, i, k, x.name);
    var node := g.nodes[i];
    assert node.inputs == [x.name] && IsCastToBf16(node) && |node.outputs| == 1;
    var o := node.outputs[0];
    assert node.outputs == [o] && IsOutput(g.nodes, i, 0, o);
    assert o !in EligibleNames(g) by {
      forall j | 0 <= j < |g.inits|
        ensures g.inits[j].name != o
      {
      }
    }
    ValueFromInitializer(rt, g, feed, x, i, o);
    CastIsTurned(g.nodes, g, g.inits, feed.Keys, i, x);
    hide CastTensor, Shrink, Run, FindAttribute;
    ValueFromInitializer(rt, Shrink(g), feed, NarrowInit(x), i, o);
    NarrowIsCastIff(rt, x.tensor);
  }

  lemma ShrinkKeepsSingle(orig: seq<Node>, g: Graph, todo: seq<Initializer>, feed: set<string>)
    requires SingleAssignment(g, feed) && CastArity(g.nodes) && Current(orig, g, todo)
    ensures SingleAssignment(ShrinkList(orig, g, todo), feed)
    decreases todo
  {
    if todo != [] {
      ShrinkOneKeeps(orig, g, todo, feed);
      hide SingleAssignment, CastArity, Current, ShrinkOne;
      ShrinkKeepsSingle(orig, ShrinkOne(orig, g, todo[0]), todo[1..], feed);
    }
  }

  /**
   Exactly when the Cast agrees with the pass on every converted initializer does the shrunk graph run and give
   every other name its value.
   */
  lemma MeaningKeptIff(rt: Runtime, g: Graph, feed: Env)
    requires SingleAssignment(g, feed.Keys) && CastArity(g.nodes) && Run(rt, g.inits, g.nodes, feed).Some?
    ensures OthersKeep(rt, g, feed)
       <==> forall x :: x in g.inits && Eligible(g.nodes, g.nodes, x) ==> CastAgrees(rt, x.tensor)
  {
    assert Current(g.nodes, g, g.inits);
    ShrinkKeepsSingle(g.nodes, g, g.inits, feed.Keys);
    hide SingleAssignment, CastArity, Eligible, Run, CastAgrees, Current;
    if OthersKeep(rt, g, feed) {
      forall x | x in g.inits && Eligible(g.nodes, g.nodes, x)
        ensures CastAgrees(rt, x.tensor)
      {
        KeptCastAgrees(rt, g, feed, x);
      }
    } else if forall x :: x in g.inits && Eligible(g.nodes, g.nodes, x) ==> CastAgrees(rt, x.tensor) {
      ShrinkPreservesMeaning(rt, g, feed);
      assert false;
    }
  }
}
