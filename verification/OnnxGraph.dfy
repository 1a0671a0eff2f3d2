/** Flat ONNX graphs and what they compute. */
module OnnxGraph {
  import opened Basics
  import Bf16

  const FLOAT := 1
  const BFLOAT16 := 16

  // Tensor data as bit patterns (binary32 patterns for FLOAT, 16-bit ones for BFLOAT16).
  datatype Tensor = Tensor(dtype: int, dims: seq<nat>, bits: seq<nat>)

  datatype Initializer = Initializer(name: string, tensor: Tensor)

  datatype Attribute = Attribute(name: string, i: int)

  datatype Node = Node(op: string, attrs: seq<Attribute>, inputs: seq<string>, outputs: seq<string>)

  type Env = map<string, Tensor>

  // The runtime's Cast on one element, and every other operator.
  datatype Runtime = Runtime(
    cast: nat -> nat,
    kernel: (string, seq<Attribute>, seq<Option<Tensor>>) -> Option<seq<Tensor>>)

  // Cast rounds every pattern that is not a NaN as IEEE 754 says.
  ghost predicate CastRounds(rt: Runtime) {
    forall u: nat :: u < Bf16.TWO32 && !Bf16.IsNaN(u) ==> Bf16.RoundsTiesToEven(u, rt.cast(u))
  }

  function CastTensor(rt: Runtime, t: Tensor): Tensor {
    Tensor(BFLOAT16, t.dims, seq<nat>(|t.bits|, i requires 0 <= i < |t.bits| => rt.cast(t.bits[i])))
  }

  // The first attribute called `name`.
  function FindAttribute(attrs: seq<Attribute>, name: string): Option<Attribute> {
    if attrs == [] then None
    else if attrs[0].name == name then Some(attrs[0])
    else FindAttribute(attrs[1..], name)
  }

  predicate IsCastToBf16(node: Node) {
    && node.op == "Cast"
    && FindAttribute(node.attrs, "to").Some?
    && FindAttribute(node.attrs, "to").value.i == BFLOAT16
  }

  // An empty input name is an omitted optional input.
  predicate InputsDefined(node: Node, env: Env) {
    forall k :: 0 <= k < |node.inputs| ==> node.inputs[k] == "" || node.inputs[k] in env
  }

  function Arguments(node: Node, env: Env): (args: seq<Option<Tensor>>)
    requires InputsDefined(node, env)
    ensures |args| == |node.inputs|
  {
    seq(|node.inputs|, k requires 0 <= k < |node.inputs| =>
      if node.inputs[k] == "" then None else Some(env[node.inputs[k]]))
  }

  function Compute(rt: Runtime, node: Node, args: seq<Option<Tensor>>): Option<seq<Tensor>> {
    if IsCastToBf16(node) && |args| == 1 && args[0].Some? && args[0].value.dtype == FLOAT then
      Some([CastTensor(rt, args[0].value)])
    else if node.op == "Identity" && |args| == 1 && args[0].Some? then
      Some([args[0].value])
    else
      rt.kernel(node.op, node.attrs, args)
  }

  // An empty output name discards the value.
  function Bind(env: Env, outputs: seq<string>, values: seq<Tensor>): Env
    requires |outputs| == |values|
    decreases outputs
  {
    if outputs == [] then env
    else Bind(if outputs[0] == "" then env else env[outputs[0] := values[0]], outputs[1..], values[1..])
  }

  function RunNode(rt: Runtime, node: Node, env: Env): Option<Env> {
    if !InputsDefined(node, env) then None
    else
      var values := Compute(rt, node, Arguments(node, env));
      if values.None? || |values.value| != |node.outputs| then None
      else Some(Bind(env, node.outputs, values.value))
  }

  // Run nodes i, i+1, ... in list order; fails when a node reads a name not yet defined.
  function RunFrom(rt: Runtime, nodes: seq<Node>, i: nat, env: Env): Option<Env>
    requires i <= |nodes|
    decreases |nodes| - i
  {
    if i == |nodes| then Some(env)
    else
      var next := RunNode(rt, nodes[i], env);
      if next.None? then None else RunFrom(rt, nodes, i + 1, next.value)
  }

  function InitialEnv(inits: seq<Initializer>, feed: Env): Env {
    if inits == [] then feed
    else
      var last := inits[|inits| - 1];
      InitialEnv(inits[..|inits| - 1], feed)[last.name := last.tensor]
  }

  function Run(rt: Runtime, inits: seq<Initializer>, nodes: seq<Node>, feed: Env): Option<Env> {
    RunFrom(rt, nodes, 0, InitialEnv(inits, feed))
  }
}
