/**
 The pass that stores FP32 initializers read only by Cast-to-BF16 as BF16: the graph
 rewrite, and that it preserves what the graph computes.
 */
module ShrinkPass {
  import opened OnnxGraph
  import Bf16

  datatype Graph = Graph(inits: seq<Initializer>, nodes: seq<Node>)

  ghost predicate Reads(nodes: seq<Node>, i: int, k: int, name: string) {
    0 <= i < |nodes| && 0 <= k < |nodes[i].inputs| && nodes[i].inputs[k] == name
  }

  // Some node reads `name`, and each one that does (by the consumer map of `orig`) is now a
  // Cast to BF16 reading it as its first input.
  ghost predicate OnlyCasts(orig: seq<Node>, nodes: seq<Node>, name: string)
    requires |orig| == |nodes|
  {
    && (exists i, k :: Reads(orig, i, k, name))
    && forall i, k :: Reads(orig, i, k, name) ==> k == 0 && IsCastToBf16(nodes[i])
  }

  ghost predicate Eligible(orig: seq<Node>, nodes: seq<Node>, init: Initializer)
    requires |orig| == |nodes|
  {
    init.tensor.dtype == FLOAT && OnlyCasts(orig, nodes, init.name)
  }

  ghost function Readers(nodes: seq<Node>, name: string): set<int> {
    set i | 0 <= i < |nodes| && Reads(nodes, i, 0, name)
  }

  predicate CastsHaveOutput(nodes: seq<Node>) {
    forall i :: 0 <= i < |nodes| ==> nodes[i].op == "Cast" ==> nodes[i].outputs != []
  }

  ghost predicate OutputOf(nodes: seq<Node>, casts: set<int>, name: string) {
    exists i :: i in casts && 0 <= i < |nodes| && nodes[i].outputs != [] && nodes[i].outputs[0] == name
  }

  function NarrowTensor(t: Tensor): Tensor {
    Tensor(BFLOAT16, t.dims, seq<nat>(|t.bits|, i requires 0 <= i < |t.bits| => Bf16.Narrow(t.bits[i])))
  }

  function NarrowInit(init: Initializer): Initializer {
    Initializer(init.name, NarrowTensor(init.tensor))
  }

  function DropTo(attrs: seq<Attribute>): seq<Attribute> {
    if attrs == [] then []
    else (if attrs[0].name == "to" then [] else [attrs[0]]) + DropTo(attrs[1..])
  }

  function AsIdentity(node: Node): Node {
    node.(op := "Identity", attrs := DropTo(node.attrs))
  }

  function RemoveFirst(inits: seq<Initializer>, init: Initializer): seq<Initializer> {
    if inits == [] then []
    else if inits[0] == init then inits[1..]
    else [inits[0]] + RemoveFirst(inits[1..], init)
  }

  // Node i once the casts in `casts` are identities and every reader of their outputs reads `name`.
  ghost function RewiredNode(nodes: seq<Node>, casts: set<int>, name: string, i: int): Node
    requires 0 <= i < |nodes|
  {
    var n := nodes[i];
    var inputs := seq(|n.inputs|, k requires 0 <= k < |n.inputs| =>
      if OutputOf(nodes, casts, n.inputs[k]) then name else n.inputs[k]);
    (if i in casts then AsIdentity(n) else n).(inputs := inputs)
  }

  ghost function Rewired(nodes: seq<Node>, casts: set<int>, name: string): (r: seq<Node>)
    ensures |r| == |nodes|
  {
    seq(|nodes|, i requires 0 <= i < |nodes| => RewiredNode(nodes, casts, name, i))
  }

  ghost function ShrinkOne(orig: seq<Node>, g: Graph, init: Initializer): (r: Graph)
    requires |orig| == |g.nodes|
    ensures |r.nodes| == |g.nodes|
  {
    if Eligible(orig, g.nodes, init) then
      Graph(RemoveFirst(g.inits, init) + [NarrowInit(init)], Rewired(g.nodes, Readers(orig, init.name), init.name))
    else g
  }

  ghost function ShrinkList(orig: seq<Node>, g: Graph, todo: seq<Initializer>): Graph
    requires |orig| == |g.nodes|
    decreases todo
  {
    if todo == [] then g else ShrinkList(orig, ShrinkOne(orig, g, todo[0]), todo[1..])
  }

  // The whole pass: the consumer map and the work list are taken once, from the input graph.
  ghost function Shrink(g: Graph): Graph {
    ShrinkList(g.nodes, g, g.inits)
  }

  /** The graph as the pass mutates it. */
  class GraphProto {
    var initializer: seq<Initializer>
    var node: seq<Node>

    constructor (inits: seq<Initializer>, nodes: seq<Node>)
      ensures initializer == inits && node == nodes
    {
      initializer, node := inits, nodes;
    }

    /** Every use of every name, as (node index, input index) pairs. */
    method Consumers() returns (uses: map<string, seq<(nat, nat)>>)
      ensures forall name :: name in uses ==> uses[name] != []
      ensures forall name, u :: name in uses && u in uses[name] ==> Reads(node, u.0, u.1, name)
      ensures forall name: string, i: nat, k: nat :: Reads(node, i, k, name) ==> name in uses && (i, k) in uses[name]
    {
      uses := map[];
      for i := 0 to |node|
        invariant forall name :: name in uses ==> uses[name] != []
        invariant forall name, u :: name in uses && u in uses[name] ==> Reads(node, u.0, u.1, name)
        invariant forall name: string, a: nat, b: nat :: Reads(node, a, b, name) && a < i ==>
                  name in uses && (a, b) in uses[name]
      {
        for k := 0 to |node[i].inputs|
          invariant forall name :: name in uses ==> uses[name] != []
          invariant forall name, u :: name in uses && u in uses[name] ==> Reads(node, u.0, u.1, name)
          invariant forall name: string, a: nat, b: nat :: Reads(node, a, b, name) && (a < i || (a == i && b < k)) ==>
                      name in uses && (a, b) in uses[name]
        {
          var name := node[i].inputs[k];
          var known := if name in uses then uses[name] else [];
          uses := uses[name := known + [(i, k)]];
        }
      }
    }

    /** Point every reader of `from` at `to`. */
    method RenameInputs(from: string, to: string)
      modifies this`node
      ensures |node| == |old(node)|
      ensures forall i :: 0 <= i < |node| ==> node[i] == RenamedNode(old(node)[i], from, to)
    {
      for i := 0 to |node|
        invariant |node| == |old(node)|
        invariant forall j :: 0 <= j < i ==> node[j] == RenamedNode(old(node)[j], from, to)
        invariant forall j :: i <= j < |node| ==> node[j] == old(node)[j]
      {
        ghost var before := node;
        for k := 0 to |node[i].inputs|
          invariant |node| == |before| && |node[i].inputs| == |before[i].inputs|
          invariant forall j :: 0 <= j < |node| && j != i ==> node[j] == before[j]
          invariant node[i] == before[i].(inputs := node[i].inputs)
          invariant forall b :: 0 <= b < k ==> node[i].inputs[b] == RenamedNode(before[i], from, to).inputs[b]
          invariant forall b :: k <= b < |node[i].inputs| ==> node[i].inputs[b] == before[i].inputs[b]
        {
          if node[i].inputs[k] == from {
            node := node[i := node[i].(inputs := node[i].inputs[k := to])];
          }
        }
        assert node[i].inputs == RenamedNode(before[i], from, to).inputs;
      }
    }

    /** Whether every recorded use is a Cast to BF16 on its first input. */
    method AllCasts(uses: seq<(nat, nat)>) returns (all: bool)
      requires forall u :: u in uses ==> u.0 < |node|
      ensures all <==> forall u :: u in uses ==> u.1 == 0 && IsCastToBf16(node[u.0])
    {
      for n := 0 to |uses|
        invariant forall m :: 0 <= m < n ==> uses[m].1 == 0 && IsCastToBf16(node[uses[m].0])
      {
        if uses[n].1 != 0 || !IsCastToBf16(node[uses[n].0]) {
          assert uses[n] in uses;
          return false;
        }
      }
      return true;
    }

    /** Turn the recorded casts into identities and their readers into readers of `name`. */
    method Rewire(uses: seq<(nat, nat)>, name: string)
      requires forall u :: u in uses ==> u.0 < |node| && node[u.0].outputs != []
      modifies this`node
      ensures node == Rewired(old(node), set u | u in uses :: u.0 as int, name)
    {
      ghost var before, done: set<int> := node, {};
      RewiredNothing(before, name);
      for n := 0 to |uses|
        invariant done == set u | u in uses[..n] :: u.0 as int
        invariant node == Rewired(before, done, name)
      {
        var at := uses[n].0;
        assert uses[n] in uses;
        var castOut := node[at].outputs[0];
        RenameInputs(castOut, name);
        node := node[at := AsIdentity(node[at])];
        RewiredOneMore(before, done, name, at, node);
        done := done + {at as int};
        assert uses[..n + 1] == uses[..n] + [uses[n]];
      }
      assert uses[..|uses|] == uses;
    }

    /** Convert `init` when each of its recorded uses is a Cast to BF16. */
    method ShrinkInit(init: Initializer, consumers: map<string, seq<(nat, nat)>>, ghost orig: seq<Node>)
      returns (converts: bool)
      requires |node| == |orig| && CastsHaveOutput(node)
      requires forall name :: name in consumers ==> consumers[name] != []
      requires forall name, u :: name in consumers && u in consumers[name] ==> Reads(orig, u.0, u.1, name)
      requires forall name: string, i: nat, k: nat :: Reads(orig, i, k, name) ==>
                 name in consumers && (i, k) in consumers[name]
      modifies this
      ensures Graph(initializer, node) == ShrinkOne(orig, old(Graph(initializer, node)), init)
      ensures converts <==> Eligible(orig, old(node), init)
    {
      if init.tensor.dtype != FLOAT || init.name !in consumers {
        return false;
      }
      var uses := consumers[init.name];
      converts := AllCasts(uses);
      UsesDecide(orig, node, init.name, uses);
      if converts {
        UsesAreReaders(orig, init.name, uses);
        initializer := RemoveFirst(initializer, init) + [NarrowInit(init)];
        Rewire(uses, init.name);
      }
    }

    /** The pass; returns how many initializers it converted. */
    method ShrinkInPlace() returns (converted: nat)
      requires CastsHaveOutput(node)
      modifies this
      ensures Graph(initializer, node) == Shrink(old(Graph(initializer, node)))
      ensures converted == |ConvertedNames(old(node), old(Graph(initializer, node)), old(initializer))|
    {
      ghost var orig, start := node, Graph(initializer, node);
      var consumers := Consumers();
      var todo := initializer;
      converted := 0;
      for n := 0 to |todo|
        invariant |node| == |orig| && CastsHaveOutput(node)
        invariant ShrinkList(orig, Graph(initializer, node), todo[n..]) == Shrink(start)
        invariant converted + |ConvertedNames(orig, Graph(initializer, node), todo[n..])|
               == |ConvertedNames(orig, start, todo)|
      {
        assert todo[n..][0] == todo[n] && todo[n..][1..] == todo[n + 1..];
        ghost var g := Graph(initializer, node);
        var converts := ShrinkInit(todo[n], consumers, orig);
        if converts {
          converted := converted + 1;
        }
        ShrinkKeepsOutputs(orig, g, todo[n]);
      }
    }
  }

  lemma ShrinkKeepsOutputs(orig: seq<Node>, g: Graph, init: Initializer)
    requires |orig| == |g.nodes| && CastsHaveOutput(g.nodes)
    ensures CastsHaveOutput(ShrinkOne(orig, g, init).nodes)
  {
  }

  // The converted names, in the order of the work list.
  ghost function ConvertedNames(orig: seq<Node>, g: Graph, todo: seq<Initializer>): seq<string>
    requires |orig| == |g.nodes|
    decreases todo
  {
    if todo == [] then []
    else (if Eligible(orig, g.nodes, todo[0]) then [todo[0].name] else [])
         + ConvertedNames(orig, ShrinkOne(orig, g, todo[0]), todo[1..])
  }

  function RenamedNode(n: Node, from: string, to: string): Node {
    n.(inputs := seq(|n.inputs|, k requires 0 <= k < |n.inputs| => if n.inputs[k] == from then to else n.inputs[k]))
  }

  lemma RewiredNothing(nodes: seq<Node>, name: string)
    ensures Rewired(nodes, {}, name) == nodes
  {
    forall i | 0 <= i < |nodes|
      ensures Rewired(nodes, {}, name)[i] == nodes[i]
    {
      assert RewiredNode(nodes, {}, name, i).inputs == nodes[i].inputs;
    }
  }

  lemma {:induction false} DropToTwice(attrs: seq<Attribute>)
    ensures DropTo(DropTo(attrs)) == DropTo(attrs)
  {
    if attrs != [] {
      DropToTwice(attrs[1..]);
      if attrs[0].name != "to" {
        assert DropTo(attrs)[1..] == DropTo(attrs[1..]);
      } else {
        assert DropTo(attrs) == DropTo(attrs[1..]);
      }
    }
  }

  // Renaming one more cast output and retyping its node extends the rewiring by that cast.
  lemma RewiredOneMore(nodes: seq<Node>, casts: set<int>, name: string, at: nat, next: seq<Node>)
    requires at < |nodes| && nodes[at].outputs != [] && |next| == |nodes|
    requires forall i :: 0 <= i < |nodes| ==>
               next[i] == var n := RenamedNode(Rewired(nodes, casts, name)[i], nodes[at].outputs[0], name);
                          if i == at then AsIdentity(n) else n
    ensures next == Rewired(nodes, casts + {at as int}, name)
  {
    var castOut, more := nodes[at].outputs[0], casts + {at as int};
    assert forall s :: OutputOf(nodes, more, s) <==> OutputOf(nodes, casts, s) || s == castOut by {
      assert at as int in more;
    }
    DropToTwice(nodes[at].attrs);
    forall i | 0 <= i < |nodes|
      ensures next[i] == RewiredNode(nodes, more, name, i)
    {
      assert next[i].inputs == RewiredNode(nodes, more, name, i).inputs;
    }
  }

  lemma UsesDecide(orig: seq<Node>, nodes: seq<Node>, name: string, uses: seq<(nat, nat)>)
    requires |orig| == |nodes| && uses != []
    requires forall u :: u in uses ==> u.0 < |orig| && Reads(orig, u.0, u.1, name)
    requires forall i: nat, k: nat :: Reads(orig, i, k, name) ==> (i, k) in uses
    ensures OnlyCasts(orig, nodes, name) <==> forall u :: u in uses ==> u.1 == 0 && IsCastToBf16(nodes[u.0])
  {
    assert uses[0] in uses && Reads(orig, uses[0].0, uses[0].1, name);
    if forall u :: u in uses ==> u.1 == 0 && IsCastToBf16(nodes[u.0]) {
      forall i, k | Reads(orig, i, k, name)
        ensures k == 0 && IsCastToBf16(nodes[i])
      {
        assert (i, k) in uses;
      }
    }
  }

  lemma UsesAreReaders(orig: seq<Node>, name: string, uses: seq<(nat, nat)>)
    requires forall u :: u in uses ==> u.1 == 0 && Reads(orig, u.0, u.1, name)
    requires forall i: nat, k: nat :: Reads(orig, i, k, name) ==> (i, k) in uses
    ensures (set u | u in uses :: u.0 as int) == Readers(orig, name)
  {
    forall i | i in Readers(orig, name)
      ensures i in (set u | u in uses :: u.0 as int)
    {
      assert (i, 0) in uses;
    }
  }
}
