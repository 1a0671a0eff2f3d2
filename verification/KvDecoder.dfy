/**
 The KV-cache Whisper decoder: the stateless reference decoder, the one-token step that
 reads a fixed MAX-slot buffer, and the host that writes one slot back per step.
 */
module KvDecoder {
  import opened Attention

  type Token = nat

  const MAX := 128
  const SCALING := 0.125

  datatype Layer = Layer(
    selfNorm: Vec -> Vec, qProj: Vec -> Vec, kProj: Vec -> Vec, vProj: Vec -> Vec, selfOut: Vec -> Vec,
    crossNorm: Vec -> Vec, crossQ: Vec -> Vec, crossK: Vec -> Vec, crossV: Vec -> Vec, crossOut: Vec -> Vec,
    finalNorm: Vec -> Vec, fc1: Vec -> Vec, activation: Vec -> Vec, fc2: Vec -> Vec)

  // The loaded submodules; every numeric one is an arbitrary function.
  datatype Whisper = Whisper(
    exp: real -> real, embed: Token -> Vec, position: nat -> Vec,
    layers: seq<Layer>, norm: Vec -> Vec, project: Vec -> Vec)

  // ----- one decoder layer applied to one position -----

  function SelfRow(l: Layer, h: Vec): Row {
    var x := l.selfNorm(h);
    Row(l.kProj(x), l.vProj(x))
  }

  function CrossRows(l: Layer, enc: seq<Vec>): seq<Row> {
    seq(|enc|, f requires 0 <= f < |enc| => Row(l.crossK(enc[f]), l.crossV(enc[f])))
  }

  function AfterSelf(exp: real -> real, l: Layer, h: Vec, rows: seq<Row>, mask: seq<real>): Vec
    requires |rows| == |mask|
  {
    Add(h, l.selfOut(Attend(exp, Scale(l.qProj(l.selfNorm(h)), SCALING), rows, mask)))
  }

  function AfterCross(exp: real -> real, l: Layer, h: Vec, cross: seq<Row>): Vec {
    Add(h, l.crossOut(Attend(exp, Scale(l.crossQ(l.crossNorm(h)), SCALING), cross, ClearMask(|cross|))))
  }

  function AfterFeedForward(l: Layer, h: Vec): Vec {
    Add(h, l.fc2(l.activation(l.fc1(l.finalNorm(h)))))
  }

  function LayerOutput(exp: real -> real, l: Layer, h: Vec, rows: seq<Row>, mask: seq<real>, cross: seq<Row>): Vec
    requires |rows| == |mask|
  {
    AfterFeedForward(l, AfterCross(exp, l, AfterSelf(exp, l, h, rows, mask), cross))
  }

  // ----- the stateless reference decoder: every position, every layer, causal mask -----

  function CausalMask(i: nat, n: nat): seq<real> {
    seq(n, j => if j <= i then CLEAR else MASKED)
  }

  function Hidden(m: Whisper, enc: seq<Vec>, toks: seq<Token>, depth: nat): (hs: seq<Vec>)
    requires depth <= |m.layers|
    ensures |hs| == |toks|
    decreases depth
  {
    if depth == 0 then
      seq(|toks|, i requires 0 <= i < |toks| => Add(m.embed(toks[i]), m.position(i)))
    else
      var below := Hidden(m, enc, toks, depth - 1);
      var l := m.layers[depth - 1];
      seq(|toks|, i requires 0 <= i < |toks| =>
        LayerOutput(m.exp, l, below[i], Rows(l, below), CausalMask(i, |toks|), CrossRows(l, enc)))
  }

  function Rows(l: Layer, hs: seq<Vec>): (rows: seq<Row>)
    ensures |rows| == |hs|
  {
    seq(|hs|, j requires 0 <= j < |hs| => SelfRow(l, hs[j]))
  }

  // Logits after the last token of `toks`.
  function Logits(m: Whisper, enc: seq<Vec>, toks: seq<Token>): Vec
    requires toks != []
  {
    m.project(m.norm(Hidden(m, enc, toks, |m.layers|)[|toks| - 1]))
  }

  // The key/value row that token `j` contributes at layer `i`.
  function ReferenceRow(m: Whisper, enc: seq<Vec>, toks: seq<Token>, i: nat, j: nat): Row
    requires i < |m.layers| && j < |toks|
  {
    SelfRow(m.layers[i], Hidden(m, enc, toks, i)[j])
  }

  lemma HiddenAt(m: Whisper, enc: seq<Vec>, toks: seq<Token>, depth: nat, i: nat)
    requires 0 < depth <= |m.layers| && i < |toks|
    ensures var below, l := Hidden(m, enc, toks, depth - 1), m.layers[depth - 1];
            Hidden(m, enc, toks, depth)[i]
            == LayerOutput(m.exp, l, below[i], Rows(l, below), CausalMask(i, |toks|), CrossRows(l, enc))
  {
  }

  lemma CausalRows(rows: seq<Row>, i: nat)
    requires i < |rows|
    ensures |CausalMask(i, |rows|)| == |rows| && ZeroOrMasked(CausalMask(i, |rows|))
    ensures Visible(rows, CausalMask(i, |rows|)) == rows[..i + 1]
  {
    VisibleOfPrefixMask(rows, CausalMask(i, |rows|), i + 1);
  }

  // Two layer applications agree when their masks let the same rows through.
  lemma SameVisibleSameOutput(exp: real -> real, l: Layer, h: Vec,
                              rows: seq<Row>, mask: seq<real>, rows': seq<Row>, mask': seq<real>, cross: seq<Row>)
    requires |rows| == |mask| && |rows'| == |mask'|
    requires ZeroOrMasked(mask) && ZeroOrMasked(mask')
    requires Visible(rows, mask) == Visible(rows', mask')
    ensures LayerOutput(exp, l, h, rows, mask, cross) == LayerOutput(exp, l, h, rows', mask', cross)
  {
    var q := Scale(l.qProj(l.selfNorm(h)), SCALING);
    AttendSeesVisible(exp, q, rows, mask);
    AttendSeesVisible(exp, q, rows', mask');
  }

  // Causality: later tokens do not change the hidden state of earlier positions, at any depth.
  lemma {:induction false} Causality(m: Whisper, enc: seq<Vec>, toks: seq<Token>, n: nat, depth: nat)
    requires depth <= |m.layers| && n <= |toks|
    ensures Hidden(m, enc, toks[..n], depth) == Hidden(m, enc, toks, depth)[..n]
    decreases depth
  {
    hide Hidden;
    if depth == 0 {
      HiddenBottom(m, enc, toks, n);
    } else {
      Causality(m, enc, toks, n, depth - 1);
      forall i | 0 <= i < n
        ensures Hidden(m, enc, toks[..n], depth)[i] == Hidden(m, enc, toks, depth)[..n][i]
      {
        CausalityAt(m, enc, toks, n, depth, i);
      }
    }
  }

  lemma HiddenBottom(m: Whisper, enc: seq<Vec>, toks: seq<Token>, n: nat)
    requires n <= |toks|
    ensures Hidden(m, enc, toks[..n], 0) == Hidden(m, enc, toks, 0)[..n]
  {
  }

  lemma CausalityAt(m: Whisper, enc: seq<Vec>, toks: seq<Token>, n: nat, depth: nat, i: nat)
    requires 0 < depth <= |m.layers| && i < n <= |toks|
    requires Hidden(m, enc, toks[..n], depth - 1) == Hidden(m, enc, toks, depth - 1)[..n]
    ensures Hidden(m, enc, toks[..n], depth)[i] == Hidden(m, enc, toks, depth)[i]
  {
    HiddenAt(m, enc, toks, depth, i);
    HiddenAt(m, enc, toks[..n], depth, i);
    hide Hidden, LayerOutput, CrossRows, CausalMask, Visible;
    var l := m.layers[depth - 1];
    var below, short := Hidden(m, enc, toks, depth - 1), Hidden(m, enc, toks[..n], depth - 1);
    var rows, shortRows := Rows(l, below), Rows(l, short);
    CausalRows(rows, i);
    CausalRows(shortRows, i);
    assert rows[..i + 1] == shortRows[..i + 1];
    SameVisibleSameOutput(m.exp, l, below[i], rows, CausalMask(i, |toks|), shortRows, CausalMask(i, n),
      CrossRows(l, enc));
  }

  lemma ReferenceRowOfPrefix(m: Whisper, enc: seq<Vec>, toks: seq<Token>, n: nat, i: nat, j: nat)
    requires i < |m.layers| && j < n <= |toks|
    ensures ReferenceRow(m, enc, toks[..n], i, j) == ReferenceRow(m, enc, toks, i, j)
  {
    Causality(m, enc, toks, n, i);
  }

  // ----- one static-shape step -----

  // The mask the host supplies: past slots below `pos`, plus the current token at the tail.
  function StepMask(pos: nat): (mask: seq<real>)
    requires pos <= MAX
    ensures |mask| == MAX + 1
  {
    seq(MAX + 1, j => if j < pos || j == MAX then CLEAR else MASKED)
  }

  function ZipRows(k: seq<Vec>, v: seq<Vec>): seq<Row>
    requires |k| == |v|
  {
    seq(|k|, j requires 0 <= j < |k| => Row(k[j], v[j]))
  }

  // The attention buffers of one step, per layer.
  datatype Buffers = Buffers(pastK: seq<seq<Vec>>, pastV: seq<seq<Vec>>, crossK: seq<seq<Vec>>, crossV: seq<seq<Vec>>) {
    ghost predicate Shape(n: nat) {
      && |pastK| == |pastV| == |crossK| == |crossV| == n
      && (forall i :: 0 <= i < n ==> |pastK[i]| == MAX && |pastV[i]| == MAX)
      && (forall i :: 0 <= i < n ==> |crossK[i]| == |crossV[i]|)
    }

    // The order in which the exported graph takes them.
    function Flat(): seq<seq<Vec>> {
      pastK + pastV + crossK + crossV
    }

    ghost function PastRows(n: nat, i: nat): (rows: seq<Row>)
      requires Shape(n) && i < n
      ensures |rows| == MAX
    {
      ZipRows(pastK[i], pastV[i])
    }

    ghost function CrossCache(n: nat, i: nat): seq<Row>
      requires Shape(n) && i < n
    {
      ZipRows(crossK[i], crossV[i])
    }
  }

  // Hidden state of the current token after `depth` layers of the static-shape step.
  ghost function StepHidden(m: Whisper, token: Token, posEmb: Vec, mask: seq<real>, kv: Buffers, depth: nat): Vec
    requires kv.Shape(|m.layers|) && depth <= |m.layers| && |mask| == MAX + 1
    decreases depth
  {
    if depth == 0 then Add(m.embed(token), posEmb)
    else
      var l, h := m.layers[depth - 1], StepHidden(m, token, posEmb, mask, kv, depth - 1);
      LayerOutput(m.exp, l, h, kv.PastRows(|m.layers|, depth - 1) + [SelfRow(l, h)], mask,
                  kv.CrossCache(|m.layers|, depth - 1))
  }

  lemma StepHiddenZero(m: Whisper, token: Token, posEmb: Vec, mask: seq<real>, kv: Buffers)
    requires kv.Shape(|m.layers|) && |mask| == MAX + 1
    ensures StepHidden(m, token, posEmb, mask, kv, 0) == Add(m.embed(token), posEmb)
  {
  }

  lemma StepHiddenAt(m: Whisper, token: Token, posEmb: Vec, mask: seq<real>, kv: Buffers, depth: nat)
    requires kv.Shape(|m.layers|) && 0 < depth <= |m.layers| && |mask| == MAX + 1
    ensures var l, h := m.layers[depth - 1], StepHidden(m, token, posEmb, mask, kv, depth - 1);
            StepHidden(m, token, posEmb, mask, kv, depth)
            == LayerOutput(m.exp, l, h, kv.PastRows(|m.layers|, depth - 1) + [SelfRow(l, h)], mask,
                           kv.CrossCache(|m.layers|, depth - 1))
  {
  }

  // Layer i: the past slots below |prior| hold the reference rows of `prior`, the cross buffer that of `enc`.
  ghost predicate LayerHolds(m: Whisper, enc: seq<Vec>, prior: seq<Token>, kv: Buffers, i: nat)
    requires kv.Shape(|m.layers|) && |prior| < MAX && i < |m.layers|
  {
    && kv.CrossCache(|m.layers|, i) == CrossRows(m.layers[i], enc)
    && forall j :: 0 <= j < |prior| ==> kv.PastRows(|m.layers|, i)[j] == ReferenceRow(m, enc, prior, i, j)
  }

  ghost predicate BuffersHold(m: Whisper, enc: seq<Vec>, prior: seq<Token>, kv: Buffers)
    requires kv.Shape(|m.layers|) && |prior| < MAX
  {
    forall i :: 0 <= i < |m.layers| ==> LayerHolds(m, enc, prior, kv, i)
  }

  // A step lets through exactly the past slots below `pos` and the current row.
  lemma StepRows(past: seq<Row>, current: Row, pos: nat)
    requires |past| == MAX && pos <= MAX
    ensures |StepMask(pos)| == MAX + 1 && ZeroOrMasked(StepMask(pos))
    ensures Visible(past + [current], StepMask(pos)) == past[..pos] + [current]
  {
    var mask := StepMask(pos);
    assert mask == mask[..MAX] + mask[MAX..];
    VisibleOfPrefixMask(past, mask[..MAX], pos);
    VisibleOfConcat(past, mask[..MAX], [current], mask[MAX..]);
    assert Visible([current], mask[MAX..]) == [current];
  }

  // The visible past and the current row are the reference rows of the whole sequence.
  lemma PastIsReference(m: Whisper, enc: seq<Vec>, prior: seq<Token>, token: Token, kv: Buffers, i: nat)
    requires kv.Shape(|m.layers|) && i < |m.layers| && |prior| < MAX && BuffersHold(m, enc, prior, kv)
    ensures kv.CrossCache(|m.layers|, i) == CrossRows(m.layers[i], enc)
    ensures var below := Hidden(m, enc, prior + [token], i);
            Rows(m.layers[i], below)
            == kv.PastRows(|m.layers|, i)[..|prior|] + [SelfRow(m.layers[i], below[|prior|])]
  {
    hide Hidden, CrossRows;
    assert LayerHolds(m, enc, prior, kv, i);
    var p, toks := |prior|, prior + [token];
    var rows := Rows(m.layers[i], Hidden(m, enc, toks, i));
    assert toks[..p] == prior;
    forall j | 0 <= j < p
      ensures kv.PastRows(|m.layers|, i)[j] == rows[j]
    {
      ReferenceRowOfPrefix(m, enc, toks, p, i, j);
      assert rows[j] == ReferenceRow(m, enc, toks, i, j);
    }
  }

  // The static-shape step computes, at every depth, the reference hidden state of the new token,
  // whatever the slots at and above |prior| contain.
  lemma {:induction false} StepHiddenIsReference(m: Whisper, enc: seq<Vec>, prior: seq<Token>, token: Token,
                                                 kv: Buffers, depth: nat)
    requires kv.Shape(|m.layers|) && depth <= |m.layers| && |prior| < MAX && BuffersHold(m, enc, prior, kv)
    ensures StepHidden(m, token, m.position(|prior|), StepMask(|prior|), kv, depth)
         == Hidden(m, enc, prior + [token], depth)[|prior|]
    decreases depth
  {
    hide *;
    if depth == 0 {
      StepBase(m, enc, prior, token, StepMask(|prior|), kv);
    } else {
      StepHiddenIsReference(m, enc, prior, token, kv, depth - 1);
      StepLayer(m, enc, prior, token, kv, depth);
    }
  }

  lemma StepBase(m: Whisper, enc: seq<Vec>, prior: seq<Token>, token: Token, mask: seq<real>, kv: Buffers)
    requires kv.Shape(|m.layers|) && |mask| == MAX + 1
    ensures StepHidden(m, token, m.position(|prior|), mask, kv, 0) == Hidden(m, enc, prior + [token], 0)[|prior|]
  {
  }

  // The induction step: one more layer.
  lemma StepLayer(m: Whisper, enc: seq<Vec>, prior: seq<Token>, token: Token, kv: Buffers, depth: nat)
    requires kv.Shape(|m.layers|) && 0 < depth <= |m.layers| && |prior| < MAX && BuffersHold(m, enc, prior, kv)
    requires StepHidden(m, token, m.position(|prior|), StepMask(|prior|), kv, depth - 1)
          == Hidden(m, enc, prior + [token], depth - 1)[|prior|]
    ensures StepHidden(m, token, m.position(|prior|), StepMask(|prior|), kv, depth)
         == Hidden(m, enc, prior + [token], depth)[|prior|]
  {
    hide *;
    var p, i, toks := |prior|, depth - 1, prior + [token];
    var l, below, past := m.layers[i], Hidden(m, enc, toks, i), kv.PastRows(|m.layers|, i);
    var rows := Rows(l, below);
    PastIsReference(m, enc, prior, token, kv, i);
    StepRows(past, SelfRow(l, below[p]), p);
    CausalRows(rows, p);
    assert rows[..p + 1] == rows;
    SameVisibleSameOutput(m.exp, l, below[p], past + [SelfRow(l, below[p])], StepMask(p),
                          rows, CausalMask(p, p + 1), CrossRows(l, enc));
    HiddenAt(m, enc, toks, depth, p);
    StepHiddenAt(m, token, m.position(p), StepMask(p), kv, depth);
  }

  // A step's logits are those of the stateless decoder on the whole sequence.
  lemma StepLogits(m: Whisper, enc: seq<Vec>, prior: seq<Token>, token: Token, kv: Buffers)
    requires kv.Shape(|m.layers|) && |prior| < MAX && BuffersHold(m, enc, prior, kv)
    ensures m.project(m.norm(StepHidden(m, token, m.position(|prior|), StepMask(|prior|), kv, |m.layers|)))
         == Logits(m, enc, prior + [token])
  {
    StepHiddenIsReference(m, enc, prior, token, kv, |m.layers|);
  }

  // A step's new key and value of layer `i` are the reference row of the new token.
  lemma StepRow(m: Whisper, enc: seq<Vec>, prior: seq<Token>, token: Token, kv: Buffers, i: nat)
    requires kv.Shape(|m.layers|) && i < |m.layers| && |prior| < MAX && BuffersHold(m, enc, prior, kv)
    ensures SelfRow(m.layers[i], StepHidden(m, token, m.position(|prior|), StepMask(|prior|), kv, i))
         == ReferenceRow(m, enc, prior + [token], i, |prior|)
  {
    StepHiddenIsReference(m, enc, prior, token, kv, i);
  }

  /** Cross-attention keys and values of every layer, interleaved k, v per layer. */
  method CrossInit(m: Whisper, enc: seq<Vec>) returns (outs: seq<seq<Vec>>)
    ensures |outs| == 2 * |m.layers|
    ensures forall i :: 0 <= i < |m.layers| ==>
              |outs[2 * i]| == |outs[2 * i + 1]| && ZipRows(outs[2 * i], outs[2 * i + 1]) == CrossRows(m.layers[i], enc)
  {
    outs := [];
    for n := 0 to |m.layers|
      invariant |outs| == 2 * n
      invariant forall i :: 0 <= i < n ==>
                  |outs[2 * i]| == |outs[2 * i + 1]|
                    && ZipRows(outs[2 * i], outs[2 * i + 1]) == CrossRows(m.layers[i], enc)
    {
      var l := m.layers[n];
      var k := seq(|enc|, f requires 0 <= f < |enc| => l.crossK(enc[f]));
      var v := seq(|enc|, f requires 0 <= f < |enc| => l.crossV(enc[f]));
      assert ZipRows(k, v) == CrossRows(l, enc);
      outs := outs + [k, v];
    }
  }

  /** Self-attention over the past buffer and the current token, cross-attention, feed-forward. */
  method ForwardLayer(exp: real -> real, l: Layer, h: Vec, mask: seq<real>,
                      pastK: seq<Vec>, pastV: seq<Vec>, crossK: seq<Vec>, crossV: seq<Vec>)
    returns (out: Vec, kc: Vec, vc: Vec)
    requires |pastK| == |pastV| == MAX && |crossK| == |crossV| && |mask| == MAX + 1
    ensures Row(kc, vc) == SelfRow(l, h)
    ensures out == LayerOutput(exp, l, h, ZipRows(pastK, pastV) + [SelfRow(l, h)], mask, ZipRows(crossK, crossV))
  {
    var x := l.selfNorm(h);
    var q := Scale(l.qProj(x), SCALING);
    kc, vc := l.kProj(x), l.vProj(x);
    var all := ZipRows(pastK + [kc], pastV + [vc]);
    assert all == ZipRows(pastK, pastV) + [SelfRow(l, h)];
    out := Add(h, l.selfOut(Attend(exp, q, all, mask)));
    x := l.crossNorm(out);
    q := Scale(l.crossQ(x), SCALING);
    out := Add(out, l.crossOut(Attend(exp, q, ZipRows(crossK, crossV), ClearMask(|crossK|))));
    x := l.finalNorm(out);
    out := Add(out, l.fc2(l.activation(l.fc1(x))));
  }

  lemma FlatSlices(kv: Buffers, n: nat)
    requires kv.Shape(n)
    ensures |kv.Flat()| == 4 * n
    ensures kv.Flat()[..n] == kv.pastK && kv.Flat()[n..2 * n] == kv.pastV
    ensures kv.Flat()[2 * n..3 * n] == kv.crossK && kv.Flat()[3 * n..] == kv.crossV
  {
  }

  /** One forward pass over all layers: logits, then the new key of every layer, then the new values. */
  method Forward(m: Whisper, token: Token, posEmb: Vec, mask: seq<real>, flat: seq<seq<Vec>>, ghost kv: Buffers)
    returns (logits: Vec, news: seq<Vec>)
    requires kv.Shape(|m.layers|) && flat == kv.Flat() && |mask| == MAX + 1
    ensures logits == m.project(m.norm(StepHidden(m, token, posEmb, mask, kv, |m.layers|)))
    ensures |news| == 2 * |m.layers|
    ensures forall i :: 0 <= i < |m.layers| ==>
              Row(news[i], news[|m.layers| + i]) == SelfRow(m.layers[i], StepHidden(m, token, posEmb, mask, kv, i))
  {
    hide StepHidden, LayerOutput, SelfRow, ZipRows, Buffers.Flat;
    var n := |m.layers|;
    FlatSlices(kv, n);
    var pastK, pastV, crossK, crossV := flat[..n], flat[n..2 * n], flat[2 * n..3 * n], flat[3 * n..];
    var h := Add(m.embed(token), posEmb);
    StepHiddenZero(m, token, posEmb, mask, kv);
    var newK: seq<Vec>, newV: seq<Vec> := [], [];
    for i := 0 to n
      invariant |newK| == i && |newV| == i
      invariant h == StepHidden(m, token, posEmb, mask, kv, i)
      invariant forall j :: 0 <= j < i ==>
                  Row(newK[j], newV[j]) == SelfRow(m.layers[j], StepHidden(m, token, posEmb, mask, kv, j))
    {
      var kc, vc;
      h, kc, vc := ForwardLayer(m.exp, m.layers[i], h, mask, pastK[i], pastV[i], crossK[i], crossV[i]);
      newK, newV := newK + [kc], newV + [vc];
      StepHiddenAt(m, token, posEmb, mask, kv, i + 1);
    }
    logits := m.project(m.norm(h));
    news := newK + newV;
  }

  /** The host's buffers: layer-by-slot arrays that each step overwrites at one slot. */
  class Host {
    const m: Whisper
    ghost const enc: seq<Vec>
    const crossK: seq<seq<Vec>>
    const crossV: seq<seq<Vec>>
    const pastK: array2<Vec>
    const pastV: array2<Vec>
    // The tokens whose rows slots 0, 1, 2, ... hold.
    ghost var fed: seq<Token>

    ghost predicate Shape()
    {
      && pastK != pastV
      && pastK.Length0 == pastV.Length0 == |m.layers|
      && pastK.Length1 == pastV.Length1 == MAX
      && |crossK| == |crossV| == |m.layers|
      && (forall i :: 0 <= i < |m.layers| ==> |crossK[i]| == |crossV[i]|)
      && (forall i :: 0 <= i < |m.layers| ==> ZipRows(crossK[i], crossV[i]) == CrossRows(m.layers[i], enc))
    }

    // Slot j of layer i holds that layer's key and value of fed[j].
    ghost predicate Valid()
      reads this, pastK, pastV
    {
      && Shape()
      && |fed| <= MAX
      && forall i, j :: 0 <= i < |m.layers| && 0 <= j < |fed| ==>
           Row(pastK[i, j], pastV[i, j]) == ReferenceRow(m, enc, fed, i, j)
    }

    constructor (m: Whisper, enc: seq<Vec>)
      ensures Valid() && fed == [] && this.m == m && this.enc == enc
      ensures fresh(pastK) && fresh(pastV)
    {
      var n := |m.layers|;
      var zero := seq(H_DIM * N_HEADS, _ => 0.0);
      var k := new Vec[n, MAX]((_, _) => zero);
      var v := new Vec[n, MAX]((_, _) => zero);
      var cross := CrossInit(m, enc);
      this.m, this.enc, this.fed := m, enc, [];
      this.pastK, this.pastV := k, v;
      this.crossK := seq(n, i requires 0 <= i < n => cross[2 * i]);
      this.crossV := seq(n, i requires 0 <= i < n => cross[2 * i + 1]);
    }

    /** Feed `token` at `pos`.  Slots from `pos` on may hold anything. */
    method Step(token: Token, pos: nat) returns (logits: Vec)
      requires Valid() && pos <= |fed| && pos < MAX
      modifies this`fed, pastK, pastV
      ensures Valid() && fed == old(fed)[..pos] + [token]
      ensures logits == Logits(m, enc, fed)
      ensures forall i, j :: 0 <= i < |m.layers| && 0 <= j < MAX && j != pos ==>
                pastK[i, j] == old(pastK[i, j]) && pastV[i, j] == old(pastV[i, j])
    {
      hide Hidden, StepHidden, SelfRow, CrossRows, StepMask, ReferenceRow;
      ghost var prior := fed[..pos];
      var kv := Feed();
      var mask := StepMask(pos);
      FeedHolds(kv, pos);
      var news;
      logits, news := Forward(m, token, m.position(pos), mask, kv.Flat(), kv);
      StepLogits(m, enc, prior, token, kv);
      WriteBack(pos, news);
      forall i, j | 0 <= i < |m.layers| && 0 <= j < pos + 1
        ensures Row(pastK[i, j], pastV[i, j]) == ReferenceRow(m, enc, prior + [token], i, j)
      {
        if j == pos {
          StepRow(m, enc, prior, token, kv, i);
          assert Row(pastK[i, pos], pastV[i, pos]) == Row(news[i], news[|m.layers| + i]);
        } else {
          assert (prior + [token])[..pos] == prior;
          ReferenceRowOfPrefix(m, enc, prior + [token], pos, i, j);
          ReferenceRowOfPrefix(m, enc, old(fed), pos, i, j);
        }
      }
      fed := prior + [token];
    }

    // Overwrite slot `pos` of every layer with the step's new keys and values.
    method WriteBack(pos: nat, news: seq<Vec>)
      requires Shape() && pos < MAX && |news| == 2 * |m.layers|
      modifies pastK, pastV
      ensures forall i, j :: 0 <= i < |m.layers| && 0 <= j < MAX && j != pos ==>
                pastK[i, j] == old(pastK[i, j]) && pastV[i, j] == old(pastV[i, j])
      ensures forall i :: 0 <= i < |m.layers| ==> pastK[i, pos] == news[i] && pastV[i, pos] == news[|m.layers| + i]
    {
      var n := |m.layers|;
      for i := 0 to n
        invariant forall a, b :: 0 <= a < n && 0 <= b < MAX && b != pos ==>
                    pastK[a, b] == old(pastK[a, b]) && pastV[a, b] == old(pastV[a, b])
        invariant forall a :: 0 <= a < i ==> pastK[a, pos] == news[a] && pastV[a, pos] == news[n + a]
      {
        pastK[i, pos] := news[i];
        pastV[i, pos] := news[n + i];
      }
    }

    // What `Feed` hands over are the reference rows of the first `pos` tokens.
    lemma FeedHolds(kv: Buffers, pos: nat)
      requires Valid() && pos <= |fed| && pos < MAX && kv.Shape(|m.layers|)
      requires forall i, j :: 0 <= i < |m.layers| && 0 <= j < MAX ==>
                 kv.PastRows(|m.layers|, i)[j] == Row(pastK[i, j], pastV[i, j])
      requires forall i :: 0 <= i < |m.layers| ==> kv.CrossCache(|m.layers|, i) == CrossRows(m.layers[i], enc)
      ensures BuffersHold(m, enc, fed[..pos], kv)
    {
      hide Hidden, SelfRow, CrossRows, ReferenceRow, ZipRows;
      forall i | 0 <= i < |m.layers|
        ensures LayerHolds(m, enc, fed[..pos], kv, i)
      {
        forall j | 0 <= j < pos
          ensures kv.PastRows(|m.layers|, i)[j] == ReferenceRow(m, enc, fed[..pos], i, j)
        {
          ReferenceRowOfPrefix(m, enc, fed, pos, i, j);
        }
      }
    }

    // The buffer part of the graph inputs: past keys, past values, cross keys, cross values.
    method Feed() returns (kv: Buffers)
      requires Shape()
      ensures kv.Shape(|m.layers|)
      ensures forall i, j :: 0 <= i < |m.layers| && 0 <= j < MAX ==>
                kv.PastRows(|m.layers|, i)[j] == Row(pastK[i, j], pastV[i, j])
      ensures forall i :: 0 <= i < |m.layers| ==> kv.CrossCache(|m.layers|, i) == CrossRows(m.layers[i], enc)
    {
      var n := |m.layers|;
      var k: seq<seq<Vec>>, v: seq<seq<Vec>> := [], [];
      for i := 0 to n
        invariant |k| == |v| == i
        invariant forall a :: 0 <= a < i ==> |k[a]| == |v[a]| == MAX
        invariant forall a, b :: 0 <= a < i && 0 <= b < MAX ==> k[a][b] == pastK[a, b] && v[a][b] == pastV[a, b]
      {
        var rowK: seq<Vec>, rowV: seq<Vec> := [], [];
        for j := 0 to MAX
          invariant |rowK| == |rowV| == j
          invariant forall b :: 0 <= b < j ==> rowK[b] == pastK[i, b] && rowV[b] == pastV[i, b]
        {
          rowK, rowV := rowK + [pastK[i, j]], rowV + [pastV[i, j]];
        }
        k, v := k + [rowK], v + [rowV];
      }
      kv := Buffers(k, v, crossK, crossV);
    }
  }
}
