/**
 The greedy loop that drives the KV-cache decoder, and which token sequence its cache
 actually holds.
 */
module GreedyDecode {
  import opened Basics
  import opened Attention
  import opened KvDecoder
  import opened DecoderLaws

  datatype Prompt = Prompt(sot: Token, transcribe: Token, noTimestamps: Token, eot: Token)

  const PREFIX := 4

  // Index of the first greatest logit (0 for an empty vector).
  function ArgMax(v: Vec): (best: nat)
    ensures v != [] ==>
              && best < |v|
              && (forall i :: 0 <= i < |v| ==> v[i] <= v[best])
              && (forall i :: 0 <= i < best ==> v[i] < v[best])
  {
    if |v| <= 1 then 0
    else
      var n := |v| - 1;
      var best := ArgMax(v[..n]);
      if v[best] < v[n] then n else best
  }

  // What the cache holds at the loop head: the prefix, its last token again, then all but the last token.
  function CachedAtHead(tokens: seq<Token>): (cached: seq<Token>)
    requires |tokens| >= PREFIX
    ensures |cached| == |tokens|
  {
    tokens[..PREFIX] + tokens[PREFIX - 1..|tokens| - 1]
  }

  // What the cache holds after one more step: the last token has been fed too.
  function CachedAfterStep(tokens: seq<Token>): (cached: seq<Token>)
    requires |tokens| >= PREFIX
    ensures |cached| == |tokens| + 1
  {
    CachedAtHead(tokens) + [tokens[|tokens| - 1]]
  }

  // The forced prefix, with the language token probed after start-of-transcript.
  ghost predicate ForcedPrefix(m: Whisper, enc: seq<Vec>, p: Prompt, tokens: seq<Token>) {
    && |tokens| >= PREFIX
    && tokens[..PREFIX] == [p.sot, ArgMax(Logits(m, enc, [p.sot])), p.transcribe, p.noTimestamps]
  }

  // Every generated token is the stateless decoder's choice after the doubled sequence.
  ghost predicate CodedRun(m: Whisper, enc: seq<Vec>, p: Prompt, tokens: seq<Token>) {
    && ForcedPrefix(m, enc, p, tokens)
    && forall i :: PREFIX <= i < |tokens| ==>
         tokens[i] == ArgMax(Logits(m, enc, CachedAfterStep(tokens[..i]))) && tokens[i] != p.eot
  }

  ghost predicate CodedStop(m: Whisper, enc: seq<Vec>, p: Prompt, tokens: seq<Token>)
    requires |tokens| >= PREFIX
  {
    |tokens| >= MAX || ArgMax(Logits(m, enc, CachedAfterStep(tokens))) == p.eot
  }

  // Plain greedy decoding: every generated token is the choice after the tokens before it.
  ghost predicate PlainRun(m: Whisper, enc: seq<Vec>, p: Prompt, tokens: seq<Token>) {
    && ForcedPrefix(m, enc, p, tokens)
    && forall i :: PREFIX <= i < |tokens| ==>
         tokens[i] == ArgMax(Logits(m, enc, tokens[..i])) && tokens[i] != p.eot
  }

  ghost predicate PlainStop(m: Whisper, enc: seq<Vec>, p: Prompt, tokens: seq<Token>)
    requires tokens != []
  {
    |tokens| >= MAX || ArgMax(Logits(m, enc, tokens)) == p.eot
  }

  // Feeding the last forced token twice does not change the choice after `tokens`.
  ghost predicate SameChoice(m: Whisper, enc: seq<Vec>, tokens: seq<Token>)
    requires |tokens| >= PREFIX
  {
    ArgMax(Logits(m, enc, CachedAfterStep(tokens))) == ArgMax(Logits(m, enc, tokens))
  }

  /** A transcript starts with the forced tokens around the likeliest language; each later token is the likeliest. */
  lemma TokensAreBest(m: Whisper, enc: seq<Vec>, p: Prompt, tokens: seq<Token>)
    requires CodedRun(m, enc, p, tokens) && forall v :: m.project(v) != []
    ensures tokens[0] == p.sot && tokens[2] == p.transcribe && tokens[3] == p.noTimestamps
    ensures var logits := Logits(m, enc, [p.sot]);
            tokens[1] < |logits| && forall k :: 0 <= k < |logits| ==> logits[k] <= logits[tokens[1]]
    ensures forall i :: 4 <= i < |tokens| ==>
              var logits := Logits(m, enc, tokens[..4] + tokens[3..i]);
              tokens[i] < |logits| && forall k :: 0 <= k < |logits| ==> logits[k] <= logits[tokens[i]]
  {
    hide Logits, ArgMax, CachedAfterStep;
    assert tokens[..PREFIX][0] == tokens[0] && tokens[..PREFIX][1] == tokens[1];
    assert tokens[..PREFIX][2] == tokens[2] && tokens[..PREFIX][3] == tokens[3];
    SomeLogits(m, enc, [p.sot]);
    forall i | 4 <= i < |tokens|
      ensures CachedAfterStep(tokens[..i]) == tokens[..4] + tokens[3..i]
      ensures Logits(m, enc, tokens[..4] + tokens[3..i]) != []
    {
      CachedBefore(tokens, i);
      SomeLogits(m, enc, tokens[..4] + tokens[3..i]);
    }
  }

  lemma SomeLogits(m: Whisper, enc: seq<Vec>, tokens: seq<Token>)
    requires tokens != [] && forall v :: m.project(v) != []
    ensures Logits(m, enc, tokens) != []
  {
    hide Hidden;
  }

  // What the cache holds when token i of a transcript is chosen.
  lemma CachedBefore(tokens: seq<Token>, i: nat)
    requires PREFIX <= i < |tokens|
    ensures CachedAfterStep(tokens[..i]) == tokens[..PREFIX] + tokens[PREFIX - 1..i]
  {
    var so := tokens[..i];
    assert so[..PREFIX] == tokens[..PREFIX] && so[PREFIX - 1..i - 1] + [so[i - 1]] == tokens[PREFIX - 1..i];
    ConcatAssoc(so[..PREFIX], so[PREFIX - 1..i - 1], [so[i - 1]]);
  }

  lemma StartOfRun(m: Whisper, enc: seq<Vec>, p: Prompt, tokens: seq<Token>)
    requires tokens == [p.sot, ArgMax(Logits(m, enc, [p.sot])), p.transcribe, p.noTimestamps]
    ensures CodedRun(m, enc, p, tokens) && CachedAtHead(tokens) == tokens
  {
    hide Logits, ArgMax;
    assert tokens[..PREFIX] == tokens;
  }

  lemma ExtendRun(m: Whisper, enc: seq<Vec>, p: Prompt, tokens: seq<Token>, next: Token)
    requires CodedRun(m, enc, p, tokens)
    requires next == ArgMax(Logits(m, enc, CachedAfterStep(tokens))) && next != p.eot
    ensures CodedRun(m, enc, p, tokens + [next])
    ensures CachedAtHead(tokens + [next]) == CachedAfterStep(tokens)
  {
    hide Logits, ArgMax;
    var longer := tokens + [next];
    assert longer[..PREFIX] == tokens[..PREFIX];
    assert longer[PREFIX - 1..|tokens|] == tokens[PREFIX - 1..|tokens| - 1] + [tokens[|tokens| - 1]];
    assert CachedAtHead(longer) == CachedAfterStep(tokens) by {
      ConcatAssoc(tokens[..PREFIX], tokens[PREFIX - 1..|tokens| - 1], [tokens[|tokens| - 1]]);
    }
    hide CachedAtHead, CachedAfterStep;
    forall i | PREFIX <= i < |longer|
      ensures longer[i] == ArgMax(Logits(m, enc, CachedAfterStep(longer[..i]))) && longer[i] != p.eot
    {
      assert longer[..i] == tokens[..i];
      assert tokens[..|tokens|] == tokens;
    }
  }

  /** Probe the language, replay the forced prefix, then decode greedily until end-of-text or a full buffer. */
  method Validate(m: Whisper, enc: seq<Vec>, p: Prompt) returns (tokens: seq<Token>, ghost cached: seq<Token>)
    ensures CodedRun(m, enc, p, tokens) && |tokens| <= MAX
    ensures CodedStop(m, enc, p, tokens)
    ensures cached == if |tokens| == MAX then CachedAtHead(tokens) else CachedAfterStep(tokens)
  {
    hide Logits, Host.Valid, ArgMax, CodedRun, CachedAtHead;
    var host := new Host(m, enc);
    var logits := host.Step(p.sot, 0);
    assert host.fed == [p.sot];
    var lang := ArgMax(logits);
    tokens := [p.sot, lang, p.transcribe, p.noTimestamps];
    for at := 1 to |tokens|
      invariant host.Valid() && host.m == m && host.enc == enc && fresh(host.pastK) && fresh(host.pastV)
      invariant host.fed == tokens[..at]
    {
      logits := host.Step(tokens[at], at);
    }
    var pos := |tokens|;
    StartOfRun(m, enc, p, tokens);
    while pos < MAX
      invariant host.Valid() && host.m == m && host.enc == enc && fresh(host.pastK) && fresh(host.pastV)
      invariant pos == |tokens| <= MAX && CodedRun(m, enc, p, tokens)
      invariant host.fed == CachedAtHead(tokens)
      decreases MAX - pos
    {
      logits := host.Step(tokens[|tokens| - 1], pos);
      assert host.fed == CachedAfterStep(tokens) by {
        assert CachedAtHead(tokens)[..pos] == CachedAtHead(tokens);
      }
      var next := ArgMax(logits);
      if next == p.eot {
        return tokens, host.fed;
      }
      ExtendRun(m, enc, p, tokens, next);
      tokens := tokens + [next];
      pos := pos + 1;
    }
    cached := host.fed;
  }

  // A finished coded run is determined by the model, the audio and the prompt.
  lemma {:induction false} CodedRunIsUnique(m: Whisper, enc: seq<Vec>, p: Prompt, a: seq<Token>, b: seq<Token>, n: nat)
    requires CodedRun(m, enc, p, a) && CodedRun(m, enc, p, b)
    requires PREFIX <= n <= |a| && n <= |b|
    ensures a[..n] == b[..n]
  {
    hide Logits, ArgMax, CachedAtHead, CachedAfterStep;
    if n > PREFIX {
      CodedRunIsUnique(m, enc, p, a, b, n - 1);
      assert a[n - 1] == ArgMax(Logits(m, enc, CachedAfterStep(a[..n - 1])));
      assert b[n - 1] == ArgMax(Logits(m, enc, CachedAfterStep(b[..n - 1])));
      assert a[..n] == a[..n - 1] + [a[n - 1]] && b[..n] == b[..n - 1] + [b[n - 1]];
    }
  }

  lemma FinishedRunIsUnique(m: Whisper, enc: seq<Vec>, p: Prompt, a: seq<Token>, b: seq<Token>)
    requires CodedRun(m, enc, p, a) && CodedStop(m, enc, p, a) && |a| <= MAX
    requires CodedRun(m, enc, p, b) && CodedStop(m, enc, p, b) && |b| <= MAX
    ensures a == b
  {
    hide Logits;
    if |a| <= |b| {
      NoLongerRun(m, enc, p, a, b);
    } else {
      NoLongerRun(m, enc, p, b, a);
    }
  }

  lemma NoLongerRun(m: Whisper, enc: seq<Vec>, p: Prompt, a: seq<Token>, b: seq<Token>)
    requires CodedRun(m, enc, p, a) && CodedStop(m, enc, p, a)
    requires CodedRun(m, enc, p, b) && |a| <= |b| <= MAX
    ensures a == b
  {
    hide Logits;
    CodedRunIsUnique(m, enc, p, a, b, |a|);
    assert b[..|a|] == a[..|a|] == a;
  }

  /**
   The loop's transcript is that of plain greedy decoding exactly when, after every prefix of the plain transcript
   at which a token is still to be chosen, the doubled token leaves the choice unchanged.
   */
  lemma TranscriptIsPlainIff(m: Whisper, enc: seq<Vec>, p: Prompt, coded: seq<Token>, plain: seq<Token>)
    requires CodedRun(m, enc, p, coded) && CodedStop(m, enc, p, coded) && |coded| <= MAX
    requires PlainRun(m, enc, p, plain) && PlainStop(m, enc, p, plain) && |plain| <= MAX
    ensures coded == plain <==> forall i :: PREFIX <= i <= |plain| && i < MAX ==> SameChoice(m, enc, plain[..i])
  {
    hide Logits, ArgMax, CachedAfterStep;
    assert plain[..|plain|] == plain;
    if coded == plain {
      forall i | PREFIX <= i <= |plain| && i < MAX
        ensures SameChoice(m, enc, plain[..i])
      {
        assert i < |plain| ==> coded[i] == plain[i];
      }
    } else if forall i :: PREFIX <= i <= |plain| && i < MAX ==> SameChoice(m, enc, plain[..i]) {
      assert CodedRun(m, enc, p, plain) && CodedStop(m, enc, p, plain);
      FinishedRunIsUnique(m, enc, p, coded, plain);
      assert false;
    }
  }

  /** Without the slot of the doubled token, the cache holds all tokens but the last, in order. */
  lemma OnlyOneSlotTooMany(tokens: seq<Token>)
    requires |tokens| > PREFIX
    ensures var cached := CachedAtHead(tokens);
            && cached[PREFIX] == cached[PREFIX - 1]
            && cached[..PREFIX] + cached[PREFIX + 1..] == tokens[..|tokens| - 1]
  {
  }

  // The cache and the transcript agree exactly when everything generated repeats the last forced token.
  lemma CacheIsTokensIff(tokens: seq<Token>)
    requires |tokens| >= PREFIX
    ensures CachedAtHead(tokens) == tokens
       <==> forall i :: PREFIX <= i < |tokens| ==> tokens[i] == tokens[PREFIX - 1]
  {
    var cached := CachedAtHead(tokens);
    assert forall i :: PREFIX <= i < |tokens| ==> cached[i] == tokens[i - 1];
    if cached == tokens {
      RepeatsLast(tokens, |tokens|);
    }
    if forall i :: PREFIX <= i < |tokens| ==> tokens[i] == tokens[PREFIX - 1] {
      assert forall i :: 0 <= i < |tokens| ==> cached[i] == tokens[i];
    }
  }

  lemma {:induction false} RepeatsLast(tokens: seq<Token>, n: nat)
    requires PREFIX <= n <= |tokens| && CachedAtHead(tokens) == tokens
    ensures forall i :: PREFIX <= i < n ==> tokens[i] == tokens[PREFIX - 1]
  {
    if n > PREFIX {
      RepeatsLast(tokens, n - 1);
      assert tokens[n - 1] == CachedAtHead(tokens)[n - 1] == tokens[n - 2];
    }
  }

  // ----- the doubled token changes the transcript -----

  const VOCAB := 51865
  const D_FEED := 4096

  function Zeros(n: nat): Vec {
    seq(n, _ => 0.0)
  }

  // A hidden state that holds `x` in its first coordinate.
  function First(x: real): Vec {
    Mark(0, x)
  }

  function OneHot(k: Token): Vec {
    seq(VOCAB, i => if i == k then 1.0 else 0.0)
  }

  // Submodules with zero weights.
  const ZERO: Vec -> Vec := _ => Zeros(D_MODEL)
  const INERT := Layer(ZERO, ZERO, ZERO, ZERO, ZERO, ZERO, ZERO, ZERO, ZERO, ZERO,
                       ZERO, _ => Zeros(D_FEED), _ => Zeros(D_FEED), ZERO)

  // The special tokens of whisper-medium.
  const EXAMPLE := Prompt(50258, 50359, 50363, 50257)

  // 24 layers that add nothing, in the shapes of whisper-medium; the logits favour token 1 at position 4 and
  // end-of-text elsewhere.
  function Positional(exp: real -> real): Whisper {
    Whisper(exp, _ => Zeros(D_MODEL), pos => First(pos as real), seq(24, _ => INERT), x => x,
            h => OneHot(if At(h, 0) == 4.0 then 1 else EXAMPLE.eot))
  }

  lemma AddZeros(x: real)
    ensures Add(First(x), Zeros(D_MODEL)) == First(x) && Add(Zeros(D_MODEL), First(x)) == First(x)
  {
  }

  lemma InertOutput(exp: real -> real, x: real, rows: seq<Row>, mask: seq<real>, cross: seq<Row>)
    requires |rows| == |mask|
    ensures LayerOutput(exp, INERT, First(x), rows, mask, cross) == First(x)
  {
    hide Attend, Add, First, Mark, Zeros, Scale;
    AddZeros(x);
  }

  lemma {:induction false} InertHidden(exp: real -> real, enc: seq<Vec>, toks: seq<Token>, depth: nat, i: nat)
    requires depth <= |Positional(exp).layers| && i < |toks|
    ensures Hidden(Positional(exp), enc, toks, depth)[i] == First(i as real)
    decreases depth
  {
    var m := Positional(exp);
    AddZeros(i as real);
    if depth > 0 {
      InertHidden(exp, enc, toks, depth - 1, i);
      HiddenAt(m, enc, toks, depth, i);
      hide Hidden, LayerOutput, First;
      var below := Hidden(m, enc, toks, depth - 1);
      InertOutput(exp, i as real, Rows(INERT, below), CausalMask(i, |toks|), CrossRows(INERT, enc));
    }
  }

  lemma OneHotChoice(k: Token)
    requires k < VOCAB
    ensures ArgMax(OneHot(k)) == k
  {
    var v := OneHot(k);
    assert v[k] == 1.0 && forall i :: 0 <= i < VOCAB && i != k ==> v[i] == 0.0;
    hide ArgMax, OneHot;
  }

  lemma PositionalChoice(exp: real -> real, enc: seq<Vec>, toks: seq<Token>)
    requires toks != []
    ensures ArgMax(Logits(Positional(exp), enc, toks)) == if |toks| == 5 then 1 else EXAMPLE.eot
  {
    hide Hidden, ArgMax, OneHot;
    InertHidden(exp, enc, toks, |Positional(exp).layers|, |toks| - 1);
    OneHotChoice(1);
    OneHotChoice(EXAMPLE.eot);
  }

  const FORCED: seq<Token> := [EXAMPLE.sot, EXAMPLE.eot, EXAMPLE.transcribe, EXAMPLE.noTimestamps]
  const CODED: seq<Token> := FORCED + [1]

  // With this model plain greedy decoding stops right after the prefix, whatever the audio ...
  lemma PlainExample(exp: real -> real, enc: seq<Vec>)
    ensures PlainRun(Positional(exp), enc, EXAMPLE, FORCED) && PlainStop(Positional(exp), enc, EXAMPLE, FORCED)
    ensures !PlainRun(Positional(exp), enc, EXAMPLE, CODED)
  {
    hide Logits, Positional, ArgMax;
    PositionalChoice(exp, enc, [EXAMPLE.sot]);
    PositionalChoice(exp, enc, FORCED);
    assert FORCED[..PREFIX] == FORCED && CODED[..PREFIX] == FORCED;
    assert CODED[PREFIX] != ArgMax(Logits(Positional(exp), enc, CODED[..PREFIX]));
  }

  // ... while the coded loop emits one more token.
  lemma DoubledTokenChangesTranscript(exp: real -> real, enc: seq<Vec>)
    ensures CodedRun(Positional(exp), enc, EXAMPLE, CODED) && CodedStop(Positional(exp), enc, EXAMPLE, CODED)
    ensures PlainRun(Positional(exp), enc, EXAMPLE, FORCED) && PlainStop(Positional(exp), enc, EXAMPLE, FORCED)
    ensures !PlainRun(Positional(exp), enc, EXAMPLE, CODED)
  {
    PlainExample(exp, enc);
    hide Logits, PlainRun, PlainStop, Positional, ArgMax;
    PositionalChoice(exp, enc, [EXAMPLE.sot]);
    PositionalChoice(exp, enc, CachedAfterStep(FORCED));
    PositionalChoice(exp, enc, CachedAfterStep(CODED));
    assert CODED[..PREFIX] == FORCED;
  }
}
