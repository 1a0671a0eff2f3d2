/**
 What the decoder's arithmetic is: attention averages values by softmax weights, head by head;
 and on inputs that use one coordinate the whole decoder is a transformer over real numbers.
 */
module DecoderLaws {
  import opened Basics
  import opened Attention
  import opened KvDecoder

  ghost predicate Positive(exp: real -> real) {
    forall x :: exp(x) > 0.0
  }

  // ----- attention -----

  lemma {:induction false} PoolIsPositive(exp: real -> real, q: Vec, rows: seq<Row>, mask: seq<real>, h: nat)
    requires |rows| == |mask| && Positive(exp)
    ensures Pool(exp, q, rows, mask, h, One) >= 0.0
    ensures (exists i :: 0 <= i < |mask| && mask[i] != MASKED) ==> Pool(exp, q, rows, mask, h, One) > 0.0
  {
    hide Score;
    if rows != [] {
      PoolIsPositive(exp, q, rows[1..], mask[1..], h);
      if i :| 0 <= i < |mask| && mask[i] != MASKED {
        assert i > 0 ==> mask[1..][i - 1] == mask[i];
      }
    }
  }

  lemma {:induction false} PoolOfEqualValues(exp: real -> real, q: Vec, rows: seq<Row>, mask: seq<real>,
                                             h: nat, c: nat, w: real)
    requires |rows| == |mask|
    requires forall i :: 0 <= i < |mask| && mask[i] != MASKED ==> At(rows[i].v, c) == w
    ensures Pool(exp, q, rows, mask, h, Value(c)) == w * Pool(exp, q, rows, mask, h, One)
  {
    hide Score;
    if rows != [] {
      PoolOfEqualValues(exp, q, rows[1..], mask[1..], h, c, w);
      var weight := Weight(exp, Score(q, rows[0].k, h), mask[0]);
      var rest := Pool(exp, q, rows[1..], mask[1..], h, One);
      assert w * (weight + rest) == weight * w + w * rest;
    }
  }

  lemma QuotientOf(x: real, y: real)
    requires y != 0.0
    ensures Ratio(x * y, y) == x
  {
  }

  /** Attention over equal values gives that value: the weights add up to one. */
  lemma AttendOfEqualValues(exp: real -> real, q: Vec, rows: seq<Row>, mask: seq<real>, w: Vec)
    requires |rows| == |mask| && Positive(exp) && |w| == D_MODEL
    requires forall i :: 0 <= i < |mask| && mask[i] != MASKED ==> rows[i].v == w
    requires exists i :: 0 <= i < |mask| && mask[i] != MASKED
    ensures Attend(exp, q, rows, mask) == w
  {
    hide Pool, Ratio;
    forall c | 0 <= c < D_MODEL
      ensures Attend(exp, q, rows, mask)[c] == w[c]
    {
      RatioOfEqualValues(exp, q, rows, mask, c / H_DIM, c, w[c]);
    }
  }

  lemma RatioOfEqualValues(exp: real -> real, q: Vec, rows: seq<Row>, mask: seq<real>, h: nat, c: nat, x: real)
    requires |rows| == |mask| && Positive(exp)
    requires forall i :: 0 <= i < |mask| && mask[i] != MASKED ==> At(rows[i].v, c) == x
    requires exists i :: 0 <= i < |mask| && mask[i] != MASKED
    ensures Ratio(Pool(exp, q, rows, mask, h, Value(c)), Pool(exp, q, rows, mask, h, One)) == x
  {
    hide Pool;
    PoolIsPositive(exp, q, rows, mask, h);
    PoolOfEqualValues(exp, q, rows, mask, h, c, x);
    QuotientOf(x, Pool(exp, q, rows, mask, h, One));
  }

  ghost predicate SameHead(x: Vec, y: Vec, h: nat) {
    forall j :: h * H_DIM <= j < h * H_DIM + H_DIM ==> At(x, j) == At(y, j)
  }

  function Product(x: real, y: real): real {
    x * y
  }

  lemma DotStep(q: Vec, k: Vec, from: nat, to: nat)
    requires from < to
    ensures Dot(q, k, from, to) == Product(At(q, from), At(k, from)) + Dot(q, k, from + 1, to)
    ensures Dot(q, k, to, to) == 0.0
  {
  }

  lemma {:induction false} SameDot(q: Vec, k: Vec, q': Vec, k': Vec, from: nat, n: nat)
    requires forall j :: from <= j < from + n ==> At(q, j) == At(q', j) && At(k, j) == At(k', j)
    ensures Dot(q, k, from, from + n) == Dot(q', k', from, from + n)
    decreases n
  {
    if n > 0 {
      hide Dot, At, Product;
      var to := from + n;
      SameDot(q, k, q', k', from + 1, n - 1);
      assert from + 1 + (n - 1) == to;
      assert At(q, from) == At(q', from) && At(k, from) == At(k', from);
      DotStep(q, k, from, to);
      DotStep(q', k', from, to);
    }
  }

  lemma {:induction false} SamePool(exp: real -> real, q: Vec, rows: seq<Row>, q': Vec, rows': seq<Row>,
                                    mask: seq<real>, h: nat, c: Coordinate)
    requires |rows| == |rows'| == |mask| && SameHead(q, q', h)
    requires forall i :: 0 <= i < |rows| ==>
               SameHead(rows[i].k, rows'[i].k, h) && Pick(rows[i].v, c) == Pick(rows'[i].v, c)
    ensures Pool(exp, q, rows, mask, h, c) == Pool(exp, q', rows', mask, h, c)
  {
    hide Pick;
    if rows != [] {
      SameDot(q, rows[0].k, q', rows'[0].k, h * H_DIM, H_DIM);
      SamePool(exp, q, rows[1..], q', rows'[1..], mask[1..], h, c);
    }
  }

  /** A coordinate of the result depends on its own head's queries and keys, and on its own coordinate of the values. */
  lemma AttendIsPerHead(exp: real -> real, q: Vec, rows: seq<Row>, q': Vec, rows': seq<Row>, mask: seq<real>, c: nat)
    requires c < D_MODEL && |rows| == |rows'| == |mask| && SameHead(q, q', c / H_DIM)
    requires forall i :: 0 <= i < |rows| ==>
               SameHead(rows[i].k, rows'[i].k, c / H_DIM) && At(rows[i].v, c) == At(rows'[i].v, c)
    ensures Attend(exp, q, rows, mask)[c] == Attend(exp, q', rows', mask)[c]
  {
    SamePool(exp, q, rows, q', rows', mask, c / H_DIM, Value(c));
    SamePool(exp, q, rows, q', rows', mask, c / H_DIM, One);
  }

  // ----- one layer -----

  /** A sublayer over equal values adds their projection to the residual; the feed-forward follows. */
  lemma LayerOfEqualValues(exp: real -> real, l: Layer, h: Vec, rows: seq<Row>, mask: seq<real>, enc: seq<Vec>,
                           w: Vec, e: Vec)
    requires Positive(exp) && |rows| == |mask| && |w| == |e| == D_MODEL && enc != []
    requires (forall i :: 0 <= i < |mask| && mask[i] != MASKED ==> rows[i].v == w)
             && (exists i :: 0 <= i < |mask| && mask[i] != MASKED)
    requires forall f :: 0 <= f < |enc| ==> l.crossV(enc[f]) == e
    ensures var heard := Add(Add(h, l.selfOut(w)), l.crossOut(e));
            LayerOutput(exp, l, h, rows, mask, CrossRows(l, enc))
            == Add(heard, l.fc2(l.activation(l.fc1(l.finalNorm(heard)))))
  {
    hide Attend;
    var cross := CrossRows(l, enc);
    AttendOfEqualValues(exp, Scale(l.qProj(l.selfNorm(h)), SCALING), rows, mask, w);
    assert ClearMask(|cross|)[0] != MASKED;
    var a := AfterSelf(exp, l, h, rows, mask);
    AttendOfEqualValues(exp, Scale(l.crossQ(l.crossNorm(a)), SCALING), cross, ClearMask(|cross|), e);
  }

  // e added n times.
  function Plus(h: Vec, e: Vec, n: nat): Vec {
    if n == 0 then h else Add(Plus(h, e, n - 1), e)
  }

  // Cross-attention copies the audio; the other sublayers add nothing.
  ghost predicate OnlyListens(l: Layer) {
    && (forall x :: l.crossV(x) == x && l.crossOut(x) == x)
    && forall x, h :: Add(h, l.selfOut(x)) == h && Add(h, l.fc2(x)) == h
  }

  /** Through layers that only listen, audio of equal frames e reaches every position, once per layer. */
  lemma {:induction false} AudioIsHeard(m: Whisper, enc: seq<Vec>, e: Vec, toks: seq<Token>, depth: nat, i: nat)
    requires depth <= |m.layers| && i < |toks| && Positive(m.exp) && |e| == D_MODEL
    requires enc != [] && forall f :: 0 <= f < |enc| ==> enc[f] == e
    requires forall n :: 0 <= n < |m.layers| ==> OnlyListens(m.layers[n])
    ensures Hidden(m, enc, toks, depth)[i] == Plus(Add(m.embed(toks[i]), m.position(i)), e, depth)
    decreases depth
  {
    hide Hidden, LayerOutput, Add, OnlyListens, Rows;
    if depth == 0 {
      HiddenStart(m, enc, toks, i);
    } else {
      AudioIsHeard(m, enc, e, toks, depth - 1, i);
      HiddenAt(m, enc, toks, depth, i);
      var l, below := m.layers[depth - 1], Hidden(m, enc, toks, depth - 1);
      ListeningLayer(m.exp, l, below[i], Rows(l, below), CausalMask(i, |toks|), enc, e);
    }
  }

  lemma HiddenStart(m: Whisper, enc: seq<Vec>, toks: seq<Token>, i: nat)
    requires i < |toks|
    ensures Hidden(m, enc, toks, 0)[i] == Add(m.embed(toks[i]), m.position(i))
  {
  }

  lemma ListeningLayer(exp: real -> real, l: Layer, h: Vec, rows: seq<Row>, mask: seq<real>, enc: seq<Vec>, e: Vec)
    requires Positive(exp) && OnlyListens(l) && |rows| == |mask| && |e| == D_MODEL
    requires enc != [] && forall f :: 0 <= f < |enc| ==> enc[f] == e
    ensures LayerOutput(exp, l, h, rows, mask, CrossRows(l, enc)) == Add(h, e)
  {
    hide Attend, Add, Scale;
    var cross := CrossRows(l, enc);
    assert AfterSelf(exp, l, h, rows, mask) == h;
    assert ClearMask(|cross|)[0] != MASKED;
    AttendOfEqualValues(exp, Scale(l.crossQ(l.crossNorm(h)), SCALING), cross, ClearMask(|cross|), e);
    assert AfterCross(exp, l, h, cross) == Add(h, e);
  }

  // ----- scores -----

  lemma {:induction false} DotIsLinear(q: Vec, q': Vec, k: Vec, from: nat, n: nat)
    requires |q| == |q'|
    ensures Dot(Add(q, q'), k, from, from + n) == Dot(q, k, from, from + n) + Dot(q', k, from, from + n)
    ensures Dot(k, Add(q, q'), from, from + n) == Dot(k, q, from, from + n) + Dot(k, q', from, from + n)
    decreases n
  {
    hide Dot, At, Add, Product;
    if n == 0 {
      DotNothing(Add(q, q'), k, from);
      DotNothing(q, k, from);
      DotNothing(q', k, from);
      DotNothing(k, Add(q, q'), from);
      DotNothing(k, q, from);
      DotNothing(k, q', from);
    } else {
      var to := from + n;
      DotIsLinear(q, q', k, from + 1, n - 1);
      assert from + 1 + (n - 1) == to;
      DotStep(Add(q, q'), k, from, to);
      DotStep(q, k, from, to);
      DotStep(q', k, from, to);
      DotStep(k, Add(q, q'), from, to);
      DotStep(k, q, from, to);
      DotStep(k, q', from, to);
      AddAt(q, q', from);
      Distribute(At(q, from), At(q', from), At(k, from));
    }
  }

  lemma Distribute(a: real, b: real, c: real)
    ensures Product(a + b, c) == Product(a, c) + Product(b, c) && Product(c, a + b) == Product(c, a) + Product(c, b)
  {
  }

  lemma AddAt(x: Vec, y: Vec, i: nat)
    requires |x| == |y|
    ensures At(Add(x, y), i) == At(x, i) + At(y, i)
  {
  }

  /** A head's score is linear in the query and in the key. */
  lemma ScoreIsLinear(q: Vec, q': Vec, k: Vec, h: nat)
    requires |q| == |q'|
    ensures Score(Add(q, q'), k, h) == Score(q, k, h) + Score(q', k, h)
    ensures Score(k, Add(q, q'), h) == Score(k, q, h) + Score(k, q', h)
  {
    DotIsLinear(q, q', k, h * H_DIM, H_DIM);
  }

  // ----- the decoder over real numbers -----

  // A layer's submodules on one coordinate.
  datatype ScalarLayer = ScalarLayer(
    selfNorm: real -> real, qProj: real -> real, kProj: real -> real, vProj: real -> real, selfOut: real -> real,
    crossNorm: real -> real, crossQ: real -> real, crossK: real -> real, crossV: real -> real, crossOut: real -> real,
    finalNorm: real -> real, fc1: real -> real, activation: real -> real, fc2: real -> real)

  datatype ScalarModel = ScalarModel(
    exp: real -> real, embed: Token -> real, position: nat -> real,
    layers: seq<ScalarLayer>, norm: real -> real, project: real -> real)

  // A softmax-weighted mean of values, by query times key.
  function ScalarWeight(exp: real -> real, q: real, k: real): real {
    exp(q * k)
  }

  function WeightSum(exp: real -> real, q: real, pairs: seq<(real, real)>): real {
    if pairs == [] then 0.0 else ScalarWeight(exp, q, pairs[0].0) + WeightSum(exp, q, pairs[1..])
  }

  function ValueSum(exp: real -> real, q: real, pairs: seq<(real, real)>): real {
    if pairs == [] then 0.0 else ScalarWeight(exp, q, pairs[0].0) * pairs[0].1 + ValueSum(exp, q, pairs[1..])
  }

  function Mean(exp: real -> real, q: real, pairs: seq<(real, real)>): real {
    if WeightSum(exp, q, pairs) == 0.0 then 0.0 else ValueSum(exp, q, pairs) / WeightSum(exp, q, pairs)
  }

  // Attention on the normalised input, added to it; queries are divided by the square root of a head's 64 coordinates.
  function ScalarAttention(exp: real -> real, norm: real -> real, query: real -> real, out: real -> real, x: real,
                           pairs: seq<(real, real)>): real
  {
    x + out(Mean(exp, query(norm(x)) / 8.0, pairs))
  }

  function ScalarFeedForward(l: ScalarLayer, x: real): real {
    x + l.fc2(l.activation(l.fc1(l.finalNorm(x))))
  }

  // Self-attention, cross-attention and feed-forward, one after the other.
  function ScalarOutput(exp: real -> real, l: ScalarLayer, x: real,
                        own: seq<(real, real)>, cross: seq<(real, real)>): real
  {
    var afterSelf := ScalarAttention(exp, l.selfNorm, l.qProj, l.selfOut, x, own);
    var afterCross := ScalarAttention(exp, l.crossNorm, l.crossQ, l.crossOut, afterSelf, cross);
    ScalarFeedForward(l, afterCross)
  }

  // Keys and values of the positions up to i, and of the audio.
  function OwnPairs(l: ScalarLayer, xs: seq<real>, i: nat): seq<(real, real)>
    requires i < |xs|
  {
    seq(i + 1, j requires 0 <= j < i + 1 => (l.kProj(l.selfNorm(xs[j])), l.vProj(l.selfNorm(xs[j]))))
  }

  function CrossPairs(l: ScalarLayer, enc: seq<real>): seq<(real, real)> {
    seq(|enc|, f requires 0 <= f < |enc| => (l.crossK(enc[f]), l.crossV(enc[f])))
  }

  // Position i after `depth` layers, computed from the positions up to i alone.
  function ScalarHidden(m: ScalarModel, enc: seq<real>, toks: seq<Token>, depth: nat, i: nat): real
    requires depth <= |m.layers| && i < |toks|
    decreases depth
  {
    if depth == 0 then m.embed(toks[i]) + m.position(i)
    else
      var l := m.layers[depth - 1];
      var xs := seq(i + 1, j requires 0 <= j < i + 1 => ScalarHidden(m, enc, toks, depth - 1, j));
      ScalarOutput(m.exp, l, xs[i], OwnPairs(l, xs, i), CrossPairs(l, enc))
  }

  type Index = i: nat | i < D_MODEL

  // A vector with `x` in one coordinate and zeros elsewhere.
  function Mark(at: Index, x: real): Vec {
    seq(D_MODEL, i => if i == at then x else 0.0)
  }

  function OnCoordinate(at: Index, f: real -> real): Vec -> Vec {
    v => Mark(at, f(At(v, at)))
  }

  function Lift(at: Index, l: ScalarLayer): Layer {
    Layer(OnCoordinate(at, l.selfNorm),
          OnCoordinate(at, l.qProj), OnCoordinate(at, l.kProj), OnCoordinate(at, l.vProj), OnCoordinate(at, l.selfOut),
          OnCoordinate(at, l.crossNorm),
          OnCoordinate(at, l.crossQ), OnCoordinate(at, l.crossK), OnCoordinate(at, l.crossV),
          OnCoordinate(at, l.crossOut),
          OnCoordinate(at, l.finalNorm),
          OnCoordinate(at, l.fc1), OnCoordinate(at, l.activation), OnCoordinate(at, l.fc2))
  }

  function LiftModel(at: Index, m: ScalarModel): Whisper {
    Whisper(m.exp, (tok: Token) => Mark(at, m.embed(tok)), (pos: nat) => Mark(at, m.position(pos)),
            seq(|m.layers|, i requires 0 <= i < |m.layers| => Lift(at, m.layers[i])),
            OnCoordinate(at, m.norm), OnCoordinate(at, m.project))
  }

  function LiftRows(at: Index, pairs: seq<(real, real)>): (rows: seq<Row>)
    ensures |rows| == |pairs|
  {
    seq(|pairs|, i requires 0 <= i < |pairs| => Row(Mark(at, pairs[i].0), Mark(at, pairs[i].1)))
  }

  lemma MarkFacts(at: Index, x: real, y: real)
    ensures At(Mark(at, x), at) == x && Add(Mark(at, x), Mark(at, y)) == Mark(at, x + y)
    ensures Scale(Mark(at, x), y) == Mark(at, x * y)
  {
    forall i | 0 <= i < D_MODEL
      ensures Scale(Mark(at, x), y)[i] == Mark(at, x * y)[i]
    {
      assert i != at ==> Mark(at, x)[i] * y == 0.0 * y == 0.0;
    }
  }

  lemma {:induction false} DotOfMarks(at: Index, x: real, y: real, from: nat, n: nat)
    ensures Dot(Mark(at, x), Mark(at, y), from, from + n) == if from <= at < from + n then x * y else 0.0
    decreases n
  {
    if n > 0 {
      hide Mark, Dot, At;
      DotOfMarks(at, x, y, from + 1, n - 1);
      assert from + 1 + (n - 1) == from + n;
      DotStep(Mark(at, x), Mark(at, y), from, from + n);
      MarkAt(at, x, from);
      MarkAt(at, y, from);
    } else {
      DotNothing(Mark(at, x), Mark(at, y), from);
    }
  }

  lemma DotNothing(q: Vec, k: Vec, from: nat)
    ensures Dot(q, k, from, from) == 0.0
  {
  }

  lemma MarkScore(at: Index, x: real, y: real)
    ensures Score(Mark(at, x), Mark(at, y), at / H_DIM) == x * y
  {
    DotOfMarks(at, x, y, at / H_DIM * H_DIM, H_DIM);
    hide Dot, Mark;
  }

  lemma PoolStep(exp: real -> real, q: Vec, rows: seq<Row>, mask: seq<real>, h: nat, c: Coordinate)
    requires |rows| == |mask| && rows != []
    ensures Pool(exp, q, rows, mask, h, c)
         == Weight(exp, Score(q, rows[0].k, h), mask[0]) * Pick(rows[0].v, c) + Pool(exp, q, rows[1..], mask[1..], h, c)
  {
    hide Score, Weight, Pick;
  }

  lemma {:induction false} MarkPool(at: Index, exp: real -> real, q: real, pairs: seq<(real, real)>, h: nat, c: nat)
    ensures var rows, mask := LiftRows(at, pairs), ClearMask(|pairs|);
            && Pool(exp, Mark(at, q), rows, mask, at / H_DIM, One) == WeightSum(exp, q, pairs)
            && Pool(exp, Mark(at, q), rows, mask, at / H_DIM, Value(at)) == ValueSum(exp, q, pairs)
            && (c != at ==> Pool(exp, Mark(at, q), rows, mask, h, Value(c)) == 0.0)
  {
    hide Score, Mark, Weight, At, ScalarWeight, Pool;
    var rows, mask := LiftRows(at, pairs), ClearMask(|pairs|);
    if pairs == [] {
      NothingPooled(exp, Mark(at, q), rows, mask, at / H_DIM, One);
      NothingPooled(exp, Mark(at, q), rows, mask, at / H_DIM, Value(at));
      NothingPooled(exp, Mark(at, q), rows, mask, h, Value(c));
    } else {
      var k, v := pairs[0].0, pairs[0].1;
      MarkPool(at, exp, q, pairs[1..], h, c);
      assert rows[0] == Row(Mark(at, k), Mark(at, v)) && mask[0] == CLEAR;
      assert rows[1..] == LiftRows(at, pairs[1..]) && mask[1..] == ClearMask(|pairs[1..]|);
      PoolStep(exp, Mark(at, q), rows, mask, at / H_DIM, One);
      PoolStep(exp, Mark(at, q), rows, mask, at / H_DIM, Value(at));
      PoolStep(exp, Mark(at, q), rows, mask, h, Value(c));
      hide LiftRows, ClearMask;
      MarkAt(at, v, c);
      MarkAt(at, v, at);
      MarkWeight(at, exp, q, k);
    }
  }

  lemma NothingPooled(exp: real -> real, q: Vec, rows: seq<Row>, mask: seq<real>, h: nat, c: Coordinate)
    requires rows == [] && mask == []
    ensures Pool(exp, q, rows, mask, h, c) == 0.0
  {
  }

  lemma MarkWeight(at: Index, exp: real -> real, q: real, k: real)
    ensures Weight(exp, Score(Mark(at, q), Mark(at, k), at / H_DIM), CLEAR) == ScalarWeight(exp, q, k)
  {
    hide Score;
    MarkScore(at, q, k);
    ClearWeight(exp, Score(Mark(at, q), Mark(at, k), at / H_DIM));
  }

  lemma ClearWeight(exp: real -> real, score: real)
    ensures Weight(exp, score, CLEAR) == exp(score)
  {
    assert score + CLEAR == score;
  }

  lemma MarkAt(at: Index, x: real, c: nat)
    ensures At(Mark(at, x), c) == if c == at then x else 0.0
  {
  }

  lemma MarkAttend(at: Index, exp: real -> real, q: real, pairs: seq<(real, real)>)
    ensures Attend(exp, Mark(at, q), LiftRows(at, pairs), ClearMask(|pairs|)) == Mark(at, Mean(exp, q, pairs))
  {
    var pooled := Attend(exp, Mark(at, q), LiftRows(at, pairs), ClearMask(|pairs|));
    hide Mark, Pool, ClearMask, LiftRows, WeightSum, ValueSum;
    forall c | 0 <= c < D_MODEL
      ensures pooled[c] == if c == at then Mean(exp, q, pairs) else 0.0
    {
      MarkPool(at, exp, q, pairs, c / H_DIM, c);
    }
    hide Attend, Mean;
    IsMark(at, pooled, Mean(exp, q, pairs));
  }

  lemma IsMark(at: Index, v: Vec, x: real)
    requires |v| == D_MODEL && forall c :: 0 <= c < D_MODEL ==> v[c] == if c == at then x else 0.0
    ensures v == Mark(at, x)
  {
  }

  lemma MarkSublayer(at: Index, exp: real -> real, norm: real -> real, query: real -> real, out: real -> real, x: real,
                     pairs: seq<(real, real)>)
    ensures var q := OnCoordinate(at, query)(OnCoordinate(at, norm)(Mark(at, x)));
            Add(Mark(at, x),
                OnCoordinate(at, out)(Attend(exp, Scale(q, SCALING), LiftRows(at, pairs), ClearMask(|pairs|))))
            == Mark(at, ScalarAttention(exp, norm, query, out, x, pairs))
  {
    hide Attend, Mark, Mean, Add, Scale, At, ClearMask, LiftRows;
    var q := query(norm(x));
    MarkFacts(at, x, 0.0);
    MarkFacts(at, norm(x), 0.0);
    MarkFacts(at, q, SCALING);
    assert q * SCALING == q / 8.0;
    MarkAttend(at, exp, q / 8.0, pairs);
    var mean := Mean(exp, q / 8.0, pairs);
    MarkFacts(at, mean, 0.0);
    MarkFacts(at, x, out(mean));
  }

  lemma MarkSelf(at: Index, exp: real -> real, l: ScalarLayer, x: real, own: seq<(real, real)>)
    ensures AfterSelf(exp, Lift(at, l), Mark(at, x), LiftRows(at, own), ClearMask(|own|))
         == Mark(at, ScalarAttention(exp, l.selfNorm, l.qProj, l.selfOut, x, own))
  {
    hide Attend, Mark, Mean, Add, Scale, At, ClearMask, LiftRows, OnCoordinate;
    MarkSublayer(at, exp, l.selfNorm, l.qProj, l.selfOut, x, own);
  }

  lemma MarkCross(at: Index, exp: real -> real, l: ScalarLayer, x: real, cross: seq<(real, real)>)
    ensures AfterCross(exp, Lift(at, l), Mark(at, x), LiftRows(at, cross))
         == Mark(at, ScalarAttention(exp, l.crossNorm, l.crossQ, l.crossOut, x, cross))
  {
    hide Attend, Mark, Mean, Add, Scale, At, ClearMask, LiftRows, OnCoordinate;
    MarkSublayer(at, exp, l.crossNorm, l.crossQ, l.crossOut, x, cross);
  }

  lemma MarkFeedForward(at: Index, l: ScalarLayer, x: real)
    ensures AfterFeedForward(Lift(at, l), Mark(at, x)) == Mark(at, ScalarFeedForward(l, x))
  {
    hide Mark, Add, Scale, At;
    MarkFacts(at, x, 0.0);
    MarkFacts(at, l.finalNorm(x), 0.0);
    MarkFacts(at, l.fc1(l.finalNorm(x)), 0.0);
    MarkFacts(at, l.activation(l.fc1(l.finalNorm(x))), 0.0);
    MarkFacts(at, x, l.fc2(l.activation(l.fc1(l.finalNorm(x)))));
  }

  // One layer on rows that are all visible.
  lemma MarkLayer(at: Index, exp: real -> real, l: ScalarLayer, x: real,
                  own: seq<(real, real)>, cross: seq<(real, real)>)
    ensures LayerOutput(exp, Lift(at, l), Mark(at, x), LiftRows(at, own), ClearMask(|own|), LiftRows(at, cross))
         == Mark(at, ScalarOutput(exp, l, x, own, cross))
  {
    hide AfterSelf, AfterCross, AfterFeedForward, Mark, Lift, LiftRows, ClearMask, ScalarAttention;
    hide ScalarFeedForward;
    MarkSelf(at, exp, l, x, own);
    var afterSelf := ScalarAttention(exp, l.selfNorm, l.qProj, l.selfOut, x, own);
    MarkCross(at, exp, l, afterSelf, cross);
    MarkFeedForward(at, l, ScalarAttention(exp, l.crossNorm, l.crossQ, l.crossOut, afterSelf, cross));
  }

  lemma {:induction false} HiddenIsScalar(at: Index, m: ScalarModel, enc: seq<real>, toks: seq<Token>,
                                          depth: nat, i: nat)
    requires depth <= |m.layers| && i < |toks|
    ensures Hidden(LiftModel(at, m), LiftAudio(at, enc), toks, depth)[i]
         == Mark(at, ScalarHidden(m, enc, toks, depth, i))
    decreases depth
  {
    hide LayerOutput, ScalarOutput, Mark, CausalMask, CrossRows, Rows, OnCoordinate, Add, OwnPairs, CrossPairs;
    hide Lift;
    var big := LiftModel(at, m);
    if depth == 0 {
      MarkFacts(at, m.embed(toks[i]), m.position(i));
    } else {
      var l, below := m.layers[depth - 1], Hidden(big, LiftAudio(at, enc), toks, depth - 1);
      var xs := seq(|toks|, j requires 0 <= j < |toks| => ScalarHidden(m, enc, toks, depth - 1, j));
      forall j | 0 <= j < |toks|
        ensures below[j] == Mark(at, xs[j])
      {
        HiddenIsScalar(at, m, enc, toks, depth - 1, j);
      }
      HiddenAt(big, LiftAudio(at, enc), toks, depth, i);
      ScalarStep(m, enc, toks, depth, i, xs);
      hide Hidden, ScalarHidden;
      LiftedLayer(at, l, below, xs, m.exp, enc, i);
    }
  }

  lemma ScalarStep(m: ScalarModel, enc: seq<real>, toks: seq<Token>, depth: nat, i: nat, xs: seq<real>)
    requires 0 < depth <= |m.layers| && i < |toks| == |xs|
    requires forall j :: 0 <= j < |xs| ==> xs[j] == ScalarHidden(m, enc, toks, depth - 1, j)
    ensures var l := m.layers[depth - 1];
            ScalarHidden(m, enc, toks, depth, i)
            == ScalarOutput(m.exp, l, xs[i], OwnPairs(l, xs, i), CrossPairs(l, enc))
  {
    hide ScalarOutput;
    var ys := seq(i + 1, j requires 0 <= j < i + 1 => ScalarHidden(m, enc, toks, depth - 1, j));
    assert ys[i] == xs[i] && OwnPairs(m.layers[depth - 1], ys, i) == OwnPairs(m.layers[depth - 1], xs, i);
  }

  function LiftAudio(at: Index, enc: seq<real>): seq<Vec> {
    seq(|enc|, f requires 0 <= f < |enc| => Mark(at, enc[f]))
  }

  // One layer of the stateless decoder at position i, from what is below it.
  lemma LiftedLayer(at: Index, l: ScalarLayer, below: seq<Vec>, xs: seq<real>, exp: real -> real, enc: seq<real>,
                    i: nat)
    requires |below| == |xs| && i < |xs| && forall j :: 0 <= j < |xs| ==> below[j] == Mark(at, xs[j])
    ensures LayerOutput(exp, Lift(at, l), below[i], Rows(Lift(at, l), below), CausalMask(i, |below|),
                        CrossRows(Lift(at, l), LiftAudio(at, enc)))
         == Mark(at, ScalarOutput(exp, l, xs[i], OwnPairs(l, xs, i), CrossPairs(l, enc)))
  {
    var own, cross := OwnPairs(l, xs, i), CrossPairs(l, enc);
    var rows := Rows(Lift(at, l), below);
    hide LayerOutput, ScalarOutput, CausalMask, ClearMask, Visible;
    assert rows[..i + 1] == LiftRows(at, own) && CrossRows(Lift(at, l), LiftAudio(at, enc)) == LiftRows(at, cross) by {
      LiftedRows(at, l, below, xs, enc, i);
    }
    hide LiftRows, Rows, CrossRows, Lift, OwnPairs, CrossPairs;
    CausalRows(rows, i);
    AllVisible(LiftRows(at, own));
    SameVisibleSameOutput(exp, Lift(at, l), below[i], rows, CausalMask(i, |below|),
                          LiftRows(at, own), ClearMask(|own|), LiftRows(at, cross));
    MarkLayer(at, exp, l, xs[i], own, cross);
  }

  lemma LiftedRows(at: Index, l: ScalarLayer, below: seq<Vec>, xs: seq<real>, enc: seq<real>, i: nat)
    requires |below| == |xs| && i < |xs| && forall j :: 0 <= j < |xs| ==> below[j] == Mark(at, xs[j])
    ensures Rows(Lift(at, l), below)[..i + 1] == LiftRows(at, OwnPairs(l, xs, i))
    ensures CrossRows(Lift(at, l), LiftAudio(at, enc)) == LiftRows(at, CrossPairs(l, enc))
  {
    hide Mark, At;
    forall x: real
      ensures At(Mark(at, x), at) == x
    {
      MarkFacts(at, x, x);
    }
  }

  lemma AllVisible(rows: seq<Row>)
    ensures ZeroOrMasked(ClearMask(|rows|)) && Visible(rows, ClearMask(|rows|)) == rows
  {
    VisibleOfPrefixMask(rows, ClearMask(|rows|), |rows|);
  }

  /** On one coordinate the stateless decoder is the transformer over real numbers. */
  lemma LogitsAreScalar(at: Index, m: ScalarModel, enc: seq<real>, toks: seq<Token>)
    requires toks != []
    ensures Logits(LiftModel(at, m), LiftAudio(at, enc), toks)
         == Mark(at, m.project(m.norm(ScalarHidden(m, enc, toks, |m.layers|, |toks| - 1))))
  {
    hide Hidden, ScalarHidden, Mark;
    HiddenIsScalar(at, m, enc, toks, |m.layers|, |toks| - 1);
    var x := ScalarHidden(m, enc, toks, |m.layers|, |toks| - 1);
    MarkFacts(at, x, x);
    MarkFacts(at, m.norm(x), x);
  }
}
