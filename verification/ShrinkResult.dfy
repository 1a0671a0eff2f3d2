/** What the shrink pass leaves in the graph: which initializers are stored as BF16, and what each node becomes. */
module ShrinkResult {
  import opened Basics
  import opened OnnxGraph
  import opened ShrinkPass
  import opened ShrinkMeaning

  // A Cast whose first attribute called `to` says BFLOAT16.
  ghost predicate CastsToBf16(n: Node) {
    && n.op == "Cast"
    && exists j :: 0 <= j < |n.attrs| && n.attrs[j] == Attribute("to", 16)
                   && forall k :: 0 <= k < j ==> n.attrs[k].name != "to"
  }

  // FP32, read by some node, and by nothing but such casts as their first input.
  ghost predicate ReadByCastsOnly(g: Graph, x: Initializer) {
    && x.tensor.dtype == 1
    && (exists i, k :: Reads(g.nodes, i, k, x.name))
    && forall i, k :: Reads(g.nodes, i, k, x.name) ==> k == 0 && CastsToBf16(g.nodes[i])
  }

  lemma {:induction false} FindAttributeIs(attrs: seq<Attribute>, name: string)
    ensures FindAttribute(attrs, name).None? ==> forall j :: 0 <= j < |attrs| ==> attrs[j].name != name
    ensures FindAttribute(attrs, name).Some? ==>
              exists j :: 0 <= j < |attrs| && attrs[j] == FindAttribute(attrs, name).value && attrs[j].name == name
                          && forall k :: 0 <= k < j ==> attrs[k].name != name
  {
    if attrs != [] && attrs[0].name != name {
      FindAttributeIs(attrs[1..], name);
      if FindAttribute(attrs, name).Some? {
        var j :| 0 <= j < |attrs[1..]|
                 && attrs[1..][j] == FindAttribute(attrs[1..], name).value && attrs[1..][j].name == name
                 && forall k :: 0 <= k < j ==> attrs[1..][k].name != name;
        assert attrs[j + 1] == FindAttribute(attrs, name).value;
        assert forall k :: 0 < k < j + 1 ==> attrs[k] == attrs[1..][k - 1];
      } else {
        assert forall k :: 0 < k < |attrs| ==> attrs[k] == attrs[1..][k - 1];
      }
    }
  }

  lemma CastIff(n: Node)
    ensures IsCastToBf16(n) <==> CastsToBf16(n)
  {
    FindAttributeIs(n.attrs, "to");
    hide FindAttribute;
    if IsCastToBf16(n) {
      var j :| 0 <= j < |n.attrs| && n.attrs[j] == FindAttribute(n.attrs, "to").value && n.attrs[j].name == "to"
               && forall k :: 0 <= k < j ==> n.attrs[k].name != "to";
      assert n.attrs[j] == Attribute("to", 16);
    }
  }

  lemma EligibleIff(g: Graph, x: Initializer)
    ensures Eligible(g.nodes, g.nodes, x) <==> ReadByCastsOnly(g, x)
  {
    forall n: Node
      ensures IsCastToBf16(n) <==> CastsToBf16(n)
    {
      CastIff(n);
    }
    hide IsCastToBf16, CastsToBf16;
  }

  // ----- initializers -----

  lemma InitStays(orig: seq<Node>, g: Graph, todo: seq<Initializer>, feed: set<string>, z: Initializer)
    requires SingleAssignment(g, feed) && CastArity(g.nodes) && Current(orig, g, todo)
    requires z in g.inits && forall y :: y in todo && Eligible(orig, orig, y) ==> y.name != z.name
    ensures z in ShrinkList(orig, g, todo).inits
    decreases todo
  {
    if todo != [] {
      assert todo[0] in todo && forall y :: y in todo[1..] ==> y in todo;
      ShrinkOneKeeps(orig, g, todo, feed);
      EligibilityIsStable(orig, g, todo, todo[0]);
      if Eligible(orig, g.nodes, todo[0]) {
        NewInitsFacts(g.inits, todo[0]);
        assert ShrinkOne(orig, g, todo[0]).inits == NewInits(g.inits, todo[0]);
      }
      hide SingleAssignment, CastArity, Current, ShrinkOne, Eligible, NewInits;
      InitStays(orig, ShrinkOne(orig, g, todo[0]), todo[1..], feed, z);
    }
  }

  /** An initializer is stored as BF16 exactly when it is FP32 and read by casts to BF16 only; otherwise as it was. */
  lemma StoredAsBf16Iff(g: Graph, feed: set<string>, x: Initializer)
    requires SingleAssignment(g, feed) && CastArity(g.nodes) && x in g.inits
    ensures Shrink(g).inits != [] && DistinctNames(Shrink(g).inits)
    ensures if ReadByCastsOnly(g, x) then NarrowInit(x) in Shrink(g).inits && x !in Shrink(g).inits
            else x in Shrink(g).inits
  {
    assert Current(g.nodes, g, g.inits);
    ShrinkKeepsSingle(g.nodes, g, g.inits, feed);
    EligibleIff(g, x);
    if ReadByCastsOnly(g, x) {
      var i, k :| Reads(g.nodes, i, k, x.name);
      assert g.nodes[i].inputs == [x.name];
      CastIsTurned(g.nodes, g, g.inits, feed, i, x);
      hide SingleAssignment, ShrinkList;
      NotBoth(Shrink(g).inits, NarrowInit(x), x);
    } else {
      forall y | y in g.inits && Eligible(g.nodes, g.nodes, y)
        ensures y.name != x.name
      {
        NotBoth(g.inits, x, y);
      }
      hide SingleAssignment, Current, ReadByCastsOnly, Eligible;
      InitStays(g.nodes, g, g.inits, feed, x);
    }
  }

  // Initializers with distinct names and one name are one.
  lemma NotBoth(inits: seq<Initializer>, x: Initializer, y: Initializer)
    requires DistinctNames(inits) && x in inits && x != y
    ensures y in inits ==> y.name != x.name
  {
    if y in inits {
      var j, l :| 0 <= j < |inits| && 0 <= l < |inits| && inits[j] == x && inits[l] == y;
      assert j < l || l < j;
    }
  }

  // ----- nodes -----

  // `kept` is what is left of `attrs` without those called `to`, in order: at the positions `at`.
  ghost predicate KeptAt(attrs: seq<Attribute>, kept: seq<Attribute>, at: seq<int>) {
    && |at| == |kept|
    && (forall j, l :: 0 <= j < l < |at| ==> at[j] < at[l])
    && (forall j :: 0 <= j < |at| ==> 0 <= at[j] < |attrs| && kept[j] == attrs[at[j]])
    && (forall i :: 0 <= i < |attrs| ==> (attrs[i].name != "to" <==> i in at))
  }

  ghost predicate WithoutTo(attrs: seq<Attribute>, kept: seq<Attribute>) {
    exists at :: KeptAt(attrs, kept, at)
  }

  ghost function Moved(at: seq<int>): (moved: seq<int>)
    ensures |moved| == |at| && forall j :: 0 <= j < |at| ==> moved[j] == at[j] + 1
    ensures forall i :: i in moved <==> i - 1 in at
  {
    var moved := seq(|at|, j requires 0 <= j < |at| => at[j] + 1);
    assert forall i :: i - 1 in at ==> i in moved by {
      forall i | i - 1 in at
        ensures i in moved
      {
        var j :| 0 <= j < |at| && at[j] == i - 1;
        assert moved[j] == i;
      }
    }
    moved
  }

  lemma SkipTo(a: Attribute, attrs: seq<Attribute>, kept: seq<Attribute>, at: seq<int>)
    requires KeptAt(attrs, kept, at) && a.name == "to"
    ensures KeptAt([a] + attrs, kept, Moved(at))
  {
    var all, places := [a] + attrs, Moved(at);
    forall j | 0 <= j < |places|
      ensures 0 <= places[j] < |all| && kept[j] == all[places[j]]
    {
      assert all[at[j] + 1] == attrs[at[j]];
    }
    forall i | 0 <= i < |all|
      ensures all[i].name != "to" <==> i in places
    {
      if i > 0 {
        assert all[i] == attrs[i - 1];
      }
      hide Moved;
    }
    hide Moved;
  }

  lemma KeepOther(a: Attribute, attrs: seq<Attribute>, kept: seq<Attribute>, at: seq<int>)
    requires KeptAt(attrs, kept, at) && a.name != "to"
    ensures KeptAt([a] + attrs, [a] + kept, [0] + Moved(at))
  {
    var all, both, places := [a] + attrs, [a] + kept, [0] + Moved(at);
    forall j | 0 <= j < |places|
      ensures 0 <= places[j] < |all| && both[j] == all[places[j]]
    {
      if j > 0 {
        assert places[j] == at[j - 1] + 1 && both[j] == kept[j - 1] && all[at[j - 1] + 1] == attrs[at[j - 1]];
      }
    }
    forall i | 0 <= i < |all|
      ensures all[i].name != "to" <==> i in places
    {
      InPlaces(at, i);
      if i > 0 {
        assert all[i] == attrs[i - 1];
      }
    }
    PlacesAscend(at);
  }

  lemma InPlaces(at: seq<int>, i: nat)
    ensures i in [0] + Moved(at) <==> i == 0 || i - 1 in at
  {
    assert ([0] + Moved(at))[0] == 0;
  }

  lemma PlacesAscend(at: seq<int>)
    requires forall j, l :: 0 <= j < l < |at| ==> at[j] < at[l]
    requires forall j :: 0 <= j < |at| ==> 0 <= at[j]
    ensures var places := [0] + Moved(at);
            forall j, l :: 0 <= j < l < |places| ==> places[j] < places[l]
  {
    var places := [0] + Moved(at);
    assert forall j :: 0 < j < |places| ==> places[j] == at[j - 1] + 1;
  }

  lemma {:induction false} DropToKeeps(attrs: seq<Attribute>)
    ensures WithoutTo(attrs, DropTo(attrs))
  {
    if attrs == [] {
      assert KeptAt(attrs, [], []);
    } else {
      var a, rest := attrs[0], attrs[1..];
      DropToKeeps(rest);
      var at :| KeptAt(rest, DropTo(rest), at);
      assert attrs == [a] + rest;
      if a.name == "to" {
        SkipTo(a, rest, DropTo(rest), at);
        assert DropTo(attrs) == DropTo(rest);
      } else {
        KeepOther(a, rest, DropTo(rest), at);
      }
    }
  }

  lemma {:induction false} OtherNodeStays(orig: seq<Node>, g: Graph, todo: seq<Initializer>, feed: set<string>, i: nat)
    requires SingleAssignment(g, feed) && CastArity(g.nodes) && Current(orig, g, todo) && i < |orig|
    requires forall x :: x in todo && Eligible(orig, orig, x) ==> !Reads(orig, i, 0, x.name)
    ensures |ShrinkList(orig, g, todo).nodes| == |g.nodes|
    ensures var after := ShrinkList(orig, g, todo).nodes[i];
            after == g.nodes[i].(inputs := after.inputs) && |after.inputs| == |g.nodes[i].inputs|
    decreases todo
  {
    if todo != [] {
      assert todo[0] in todo && forall y :: y in todo[1..] ==> y in todo;
      ShrinkOneKeeps(orig, g, todo, feed);
      EligibilityIsStable(orig, g, todo, todo[0]);
      NodeStays(orig, g, todo[0], i);
      hide SingleAssignment, CastArity, Current, ShrinkOne, Eligible, Reads;
      OtherNodeStays(orig, ShrinkOne(orig, g, todo[0]), todo[1..], feed, i);
    }
  }

  /**
   A cast of a converted initializer becomes an Identity with its attributes but those called `to`; every other node
   keeps its operator, attributes, outputs and number of inputs.
   */
  lemma NodesAfter(g: Graph, feed: set<string>, i: nat)
    requires SingleAssignment(g, feed) && CastArity(g.nodes) && i < |g.nodes|
    ensures |Shrink(g).nodes| == |g.nodes|
    ensures var before, after := g.nodes[i], Shrink(g).nodes[i];
            if exists x :: x in g.inits && ReadByCastsOnly(g, x) && Reads(g.nodes, i, 0, x.name)
            then after.op == "Identity" && WithoutTo(before.attrs, after.attrs)
                 && after.inputs == before.inputs && after.outputs == before.outputs
            else after == before.(inputs := after.inputs) && |after.inputs| == |before.inputs|
  {
    assert Current(g.nodes, g, g.inits);
    hide SingleAssignment, CastArity, Current, ReadByCastsOnly, Eligible, WithoutTo;
    forall x
      ensures Eligible(g.nodes, g.nodes, x) <==> ReadByCastsOnly(g, x)
    {
      EligibleIff(g, x);
    }
    SameLength(g.nodes, g, g.inits);
    if x :| x in g.inits && ReadByCastsOnly(g, x) && Reads(g.nodes, i, 0, x.name) {
      CastAfter(g, feed, i, x);
    } else {
      hide ReadByCastsOnly;
      OtherNodeStays(g.nodes, g, g.inits, feed, i);
    }
  }

  lemma CastAfter(g: Graph, feed: set<string>, i: nat, x: Initializer)
    requires SingleAssignment(g, feed) && CastArity(g.nodes) && i < |g.nodes| && |Shrink(g).nodes| == |g.nodes|
    requires x in g.inits && ReadByCastsOnly(g, x) && Reads(g.nodes, i, 0, x.name)
    ensures var before, after := g.nodes[i], Shrink(g).nodes[i];
            && after.op == "Identity" && WithoutTo(before.attrs, after.attrs)
            && after.inputs == before.inputs && after.outputs == before.outputs
  {
    assert Current(g.nodes, g, g.inits);
    EligibleIff(g, x);
    assert g.nodes[i].inputs == [x.name];
    hide SingleAssignment, CastArity, Current, ReadByCastsOnly, Eligible, WithoutTo, ShrinkList, DropTo;
    CastIsTurned(g.nodes, g, g.inits, feed, i, x);
    DropToKeeps(g.nodes[i].attrs);
  }

  lemma SameLength(orig: seq<Node>, g: Graph, todo: seq<Initializer>)
    requires |orig| == |g.nodes|
    ensures |ShrinkList(orig, g, todo).nodes| == |orig|
    decreases todo
  {
  }

  // ----- graphs that run -----

  // Every input is defined by the time its node runs.
  ghost predicate InOrder(nodes: seq<Node>, i: nat, known: set<string>)
    requires i <= |nodes|
    decreases |nodes| - i
  {
    i < |nodes| ==>
      && (forall k :: 0 <= k < |nodes[i].inputs| ==> nodes[i].inputs[k] == "" || nodes[i].inputs[k] in known)
      && InOrder(nodes, i + 1, known + set a | 0 <= a < |nodes[i].outputs| :: nodes[i].outputs[a])
  }

  // Every operator computes, with as many results as its node has outputs.
  ghost predicate Total(rt: Runtime, nodes: seq<Node>) {
    forall i, args :: 0 <= i < |nodes| ==>
      Compute(rt, nodes[i], args).Some? && |Compute(rt, nodes[i], args).value| == |nodes[i].outputs|
  }

  lemma {:induction false} BindDefines(env: Env, outputs: seq<string>, values: seq<Tensor>)
    requires |outputs| == |values|
    ensures env.Keys <= Bind(env, outputs, values).Keys
    ensures forall a :: 0 <= a < |outputs| && outputs[a] != "" ==> outputs[a] in Bind(env, outputs, values)
    decreases outputs
  {
    if outputs != [] {
      BindDefines(if outputs[0] == "" then env else env[outputs[0] := values[0]], outputs[1..], values[1..]);
      assert forall a :: 0 < a < |outputs| ==> outputs[a] == outputs[1..][a - 1];
    }
  }

  /** A graph in topological order whose operators all compute runs to its end. */
  lemma {:induction false} OrderedGraphRuns(rt: Runtime, nodes: seq<Node>, i: nat, env: Env, known: set<string>)
    requires i <= |nodes| && Total(rt, nodes) && InOrder(nodes, i, known)
    requires forall n :: n in known && n != "" ==> n in env
    ensures RunFrom(rt, nodes, i, env).Some?
    decreases |nodes| - i
  {
    if i < |nodes| {
      hide Compute, Bind;
      var values := Compute(rt, nodes[i], Arguments(nodes[i], env));
      BindDefines(env, nodes[i].outputs, values.value);
      OrderedGraphRuns(rt, nodes, i + 1, RunNode(rt, nodes[i], env).value,
                       known + set a | 0 <= a < |nodes[i].outputs| :: nodes[i].outputs[a]);
    }
  }
}
