/**
 Masked scaled-dot-product attention over the reals, as one step of the static-shape
 Whisper decoder computes it.  `exp` stays a parameter; a masked score has weight zero.
 */
module Attention {
  import opened Basics

  type Vec = seq<real>

  // One key/value pair of a self- or cross-attention buffer.
  datatype Row = Row(k: Vec, v: Vec)

  datatype Coordinate = One | Value(index: nat)

  const N_HEADS := 16
  const H_DIM := 64
  const D_MODEL := 1024
  const MASKED := -1000000000.0
  const CLEAR := 0.0

  function At(x: Vec, i: nat): real {
    if i < |x| then x[i] else 0.0
  }

  function Add(x: Vec, y: Vec): Vec {
    seq(|x|, i requires 0 <= i < |x| => x[i] + At(y, i))
  }

  function Scale(x: Vec, s: real): Vec {
    seq(|x|, i requires 0 <= i < |x| => x[i] * s)
  }

  function Dot(q: Vec, k: Vec, from: nat, to: nat): real
    decreases to - from
  {
    if from >= to then 0.0 else At(q, from) * At(k, from) + Dot(q, k, from + 1, to)
  }

  // The unmasked attention score of head `h`.
  function Score(q: Vec, k: Vec, h: nat): real {
    Dot(q, k, h * H_DIM, h * H_DIM + H_DIM)
  }

  function Weight(exp: real -> real, score: real, mask: real): real {
    if mask == MASKED then 0.0 else exp(score + mask)
  }

  function Pick(x: Vec, c: Coordinate): real {
    match c
    case One => 1.0
    case Value(i) => At(x, i)
  }

  // Sum of softmax numerators of head `h`, each multiplied by one coordinate of its value row
  // (`One` gives the softmax denominator).
  function Pool(exp: real -> real, q: Vec, rows: seq<Row>, mask: seq<real>, h: nat, c: Coordinate): real
    requires |rows| == |mask|
  {
    if rows == [] then 0.0
    else
      Weight(exp, Score(q, rows[0].k, h), mask[0]) * Pick(rows[0].v, c)
      + Pool(exp, q, rows[1..], mask[1..], h, c)
  }

  function Ratio(n: real, d: real): real {
    if d == 0.0 then 0.0 else n / d
  }

  // softmax(q k^T + mask) v for all heads, merged back into one vector.
  function Attend(exp: real -> real, q: Vec, rows: seq<Row>, mask: seq<real>): Vec
    requires |rows| == |mask|
  {
    seq(D_MODEL, c requires 0 <= c < D_MODEL =>
      Ratio(Pool(exp, q, rows, mask, c / H_DIM, Value(c)), Pool(exp, q, rows, mask, c / H_DIM, One)))
  }

  function ClearMask(n: nat): (mask: seq<real>)
    ensures |mask| == n
  {
    seq(n, _ => CLEAR)
  }

  // The rows a mask lets through, in order.
  function Visible(rows: seq<Row>, mask: seq<real>): seq<Row>
    requires |rows| == |mask|
  {
    if rows == [] then []
    else (if mask[0] == MASKED then [] else [rows[0]]) + Visible(rows[1..], mask[1..])
  }

  ghost predicate ZeroOrMasked(mask: seq<real>) {
    forall i :: 0 <= i < |mask| ==> mask[i] == CLEAR || mask[i] == MASKED
  }

  lemma {:induction false} PoolSeesVisible(exp: real -> real, q: Vec, rows: seq<Row>, mask: seq<real>, h: nat,
                                           c: Coordinate)
    requires |rows| == |mask| && ZeroOrMasked(mask)
    ensures Pool(exp, q, rows, mask, h, c)
         == Pool(exp, q, Visible(rows, mask), ClearMask(|Visible(rows, mask)|), h, c)
  {
    hide Score, Pick;
    if rows != [] {
      PoolSeesVisible(exp, q, rows[1..], mask[1..], h, c);
      var tail := Visible(rows[1..], mask[1..]);
      var all := Visible(rows, mask);
      if mask[0] == MASKED {
        assert all == tail;
        assert Weight(exp, Score(q, rows[0].k, h), mask[0]) == 0.0;
      } else {
        assert all[1..] == tail;
        assert ClearMask(|all|)[1..] == ClearMask(|tail|);
      }
    }
  }

  // What a mask excludes never reaches the result: attention is a function of the visible rows.
  lemma AttendSeesVisible(exp: real -> real, q: Vec, rows: seq<Row>, mask: seq<real>)
    requires |rows| == |mask| && ZeroOrMasked(mask)
    ensures Attend(exp, q, rows, mask)
         == Attend(exp, q, Visible(rows, mask), ClearMask(|Visible(rows, mask)|))
  {
    forall c | 0 <= c < D_MODEL
      ensures Attend(exp, q, rows, mask)[c]
           == Attend(exp, q, Visible(rows, mask), ClearMask(|Visible(rows, mask)|))[c]
    {
      PoolSeesVisible(exp, q, rows, mask, c / H_DIM, Value(c));
      PoolSeesVisible(exp, q, rows, mask, c / H_DIM, One);
    }
  }

  lemma {:induction false} VisibleOfPrefixMask(rows: seq<Row>, mask: seq<real>, n: nat)
    requires |rows| == |mask| && n <= |mask|
    requires forall i :: 0 <= i < n ==> mask[i] == CLEAR
    requires forall i :: n <= i < |mask| ==> mask[i] == MASKED
    ensures Visible(rows, mask) == rows[..n]
  {
    if rows != [] {
      VisibleOfPrefixMask(rows[1..], mask[1..], if n == 0 then 0 else n - 1);
      if n > 0 {
        assert rows[..n] == [rows[0]] + rows[1..][..n - 1];
      }
    }
  }

  lemma VisibleCons(row: Row, m: real, rows: seq<Row>, mask: seq<real>)
    requires |rows| == |mask|
    ensures Visible([row] + rows, [m] + mask) == (if m == MASKED then [] else [row]) + Visible(rows, mask)
  {
    assert ([row] + rows)[1..] == rows && ([m] + mask)[1..] == mask;
  }

  lemma {:induction false} VisibleOfConcat(rows: seq<Row>, mask: seq<real>, more: seq<Row>, moreMask: seq<real>)
    requires |rows| == |mask| && |more| == |moreMask|
    ensures Visible(rows + more, mask + moreMask) == Visible(rows, mask) + Visible(more, moreMask)
  {
    if rows == [] {
      assert rows + more == more && mask + moreMask == moreMask;
    } else {
      hide Visible;
      var row, m, rest, restMask := rows[0], mask[0], rows[1..], mask[1..];
      VisibleOfConcat(rest, restMask, more, moreMask);
      VisibleCons(row, m, rest + more, restMask + moreMask);
      VisibleCons(row, m, rest, restMask);
      assert rows == [row] + rest && mask == [m] + restMask;
      assert rows + more == [row] + (rest + more) && mask + moreMask == [m] + (restMask + moreMask);
      ConcatAssoc(if m == MASKED then [] else [row], Visible(rest, restMask), Visible(more, moreMask));
    }
  }
}
