/**
 The pairing and unlock notifier: one notification per transition, across polls that reload
 their state from a two-line cache file.
 */
module Notifier {
  import opened Basics
  import opened Text

  datatype Reason = PeerRevoked | NoBond | AuthError | TransportError | Other(tag: string)

  datatype Kind = Ok | Denied(reason: Reason)

  datatype Unlock = Unlock(nonce: string, endMs: nat, kind: Kind)

  datatype Pair = Idle | Pending(passkey: string) | Paired(host: string)

  datatype State = State(pairKey: Option<string>, outcomeKey: Option<string>)

  function Display(r: Reason): string {
    match r
    case PeerRevoked => "peer revoked"
    case NoBond => "no bond"
    case AuthError => "auth-err"
    case TransportError => "transport-error"
    case Other(tag) => tag
  }

  function Digit(d: nat): char
    requires d < 10
  {
    '0' + d as char
  }

  function Decimal(n: nat): (s: string)
    ensures s != [] && '|' !in s
  {
    if n < 10 then [Digit(n)] else Decimal(n / 10) + [Digit(n % 10)]
  }

  function Verdict(k: Kind): string {
    match k
    case Ok => "ok"
    case Denied(r) => "denied:" + Display(r)
  }

  function UnlockKey(u: Unlock): string {
    Verdict(u.kind) + "|" + u.nonce + "|" + Decimal(u.endMs)
  }

  function PairKey(p: Pair): Option<string> {
    match p
    case Idle => None
    case Pending(passkey) => Some("pending:" + passkey)
    case Paired(host) => Some("ok:" + host)
  }

  function PairBody(p: Pair): Option<string> {
    match p
    case Idle => None
    case Pending(passkey) => Some("syauth: pair request — code " + passkey + ", click bar to accept")
    case Paired(host) => Some("syauth: paired with " + host)
  }

  datatype Notice = PairNotice(body: string) | UnlockNotice(body: string)

  // Lines of the fallback log, by what they record.
  datatype Log =
    | PairFired(pairKey: Option<string>) | PairIdle(before: Option<string>) | PairRepeated(pairKey: Option<string>)
    | UnlockRepeated(key: string) | UnlockSilent(key: string) | UnlockFired(key: string)

  // One poll: the pair side, and the last row of the audit tail if there is one.
  datatype Poll = Poll(pair: Pair, last: Option<Unlock>)

  function PairNotices(before: Option<string>, p: Pair): seq<Notice> {
    if PairKey(p) != before && PairBody(p).Some? then [PairNotice(PairBody(p).value)] else []
  }

  function UnlockNotices(before: Option<string>, u: Option<Unlock>): seq<Notice> {
    if u.Some? && Some(UnlockKey(u.value)) != before && u.value.kind.Denied?
    then [UnlockNotice("syauth: unlock denied (" + Display(u.value.kind.reason) + ")")] else []
  }

  // What each side of a poll appends to the fallback log.
  function PairLog(before: Option<string>, p: Pair): seq<Log> {
    if PairKey(p) == before then (if p == Idle then [] else [PairRepeated(before)])
    else if p == Idle then [PairIdle(before)]
    else [PairFired(PairKey(p))]
  }

  function UnlockLog(before: Option<string>, u: Option<Unlock>): seq<Log> {
    if u.None? then []
    else
      var key := UnlockKey(u.value);
      if Some(key) == before then [UnlockRepeated(key)]
      else if u.value.kind.Ok? then [UnlockSilent(key)]
      else [UnlockFired(key)]
  }

  function After(s: State, p: Poll): State {
    State(PairKey(p.pair), if p.last.Some? then Some(UnlockKey(p.last.value)) else s.outcomeKey)
  }

  /** The dispatcher with its two callbacks as growing lists. */
  class Dispatcher {
    var state: State
    var notices: seq<Notice>
    var log: seq<Log>

    constructor (s: State)
      ensures state == s && notices == [] && log == []
    {
      state, notices, log := s, [], [];
    }

    /** One poll: notify each transition once; log every other one. */
    method NotifyDispatcher(pair: Pair, outcomes: seq<Unlock>)
      modifies this
      ensures var last := if outcomes == [] then None else Some(outcomes[|outcomes| - 1]);
              && state == After(old(state), Poll(pair, last))
              && notices == old(notices) + PairNotices(old(state.pairKey), pair)
                 + UnlockNotices(old(state.outcomeKey), last)
              && log == old(log) + PairLog(old(state.pairKey), pair) + UnlockLog(old(state.outcomeKey), last)
      ensures log == old(log) <==> pair == Idle && old(state.pairKey) == None && outcomes == []
    {
      var key := PairKey(pair);
      if key != state.pairKey {
        var body := PairBody(pair);
        if body.Some? {
          notices := notices + [PairNotice(body.value)];
          log := log + [PairFired(key)];
        } else {
          log := log + [PairIdle(state.pairKey)];
        }
        state := state.(pairKey := key);
      } else if pair != Idle {
        log := log + [PairRepeated(key)];
      }
      if outcomes == [] {
        return;
      }
      var last := outcomes[|outcomes| - 1];
      var unlockKey := UnlockKey(last);
      if Some(unlockKey) == state.outcomeKey {
        log := log + [UnlockRepeated(unlockKey)];
        return;
      }
      match last.kind {
        case Ok =>
          log := log + [UnlockSilent(unlockKey)];
        case Denied(reason) =>
          notices := notices + [UnlockNotice("syauth: unlock denied (" + Display(reason) + ")")];
          log := log + [UnlockFired(unlockKey)];
      }
      state := state.(outcomeKey := Some(unlockKey));
    }
  }

  // ----- counting over any sequence of polls -----

  function StateAfter(s: State, polls: seq<Poll>): State
    decreases polls
  {
    if polls == [] then s else After(StateAfter(s, polls[..|polls| - 1]), polls[|polls| - 1])
  }

  // Pair and unlock notices of a whole run, separately.
  function PairRun(s: State, polls: seq<Poll>): seq<Notice>
    decreases polls
  {
    if polls == [] then []
    else
      var n := |polls| - 1;
      PairRun(s, polls[..n]) + PairNotices(StateAfter(s, polls[..n]).pairKey, polls[n].pair)
  }

  function UnlockRun(s: State, polls: seq<Poll>): seq<Notice>
    decreases polls
  {
    if polls == [] then []
    else
      var n := |polls| - 1;
      UnlockRun(s, polls[..n]) + UnlockNotices(StateAfter(s, polls[..n]).outcomeKey, polls[n].last)
  }

  // Poll i changes the pair key, compared with the poll before it, to one that is not idle.
  predicate PairChange(s: State, polls: seq<Poll>, i: nat)
    requires i < |polls|
  {
    polls[i].pair != Idle && PairKey(polls[i].pair) != if i == 0 then s.pairKey else PairKey(polls[i - 1].pair)
  }

  // The outcome key of the latest poll before i that had one.
  function KeyBefore(s: State, polls: seq<Poll>, i: nat): Option<string>
    requires i <= |polls|
  {
    if i == 0 then s.outcomeKey
    else if polls[i - 1].last.Some? then Some(UnlockKey(polls[i - 1].last.value))
    else KeyBefore(s, polls, i - 1)
  }

  predicate DeniedChange(s: State, polls: seq<Poll>, i: nat)
    requires i < |polls|
  {
    polls[i].last.Some? && polls[i].last.value.kind.Denied?
      && Some(UnlockKey(polls[i].last.value)) != KeyBefore(s, polls, i)
  }

  lemma {:induction false} KeyBeforeOfPrefix(s: State, polls: seq<Poll>, n: nat, i: nat)
    requires i <= n <= |polls|
    ensures KeyBefore(s, polls[..n], i) == KeyBefore(s, polls, i)
    decreases i
  {
    if i > 0 {
      KeyBeforeOfPrefix(s, polls, n, i - 1);
    }
  }

  lemma {:induction false} StateIsLastSeen(s: State, polls: seq<Poll>)
    ensures StateAfter(s, polls).outcomeKey == KeyBefore(s, polls, |polls|)
    ensures polls != [] ==> StateAfter(s, polls).pairKey == PairKey(polls[|polls| - 1].pair)
    decreases polls
  {
    if polls != [] {
      var n := |polls| - 1;
      StateIsLastSeen(s, polls[..n]);
      KeyBeforeOfPrefix(s, polls, n, n);
    }
  }

  // How many positions below n satisfy p.
  ghost function Count(n: nat, p: nat -> bool): nat {
    |set i: nat | i < n && p(i)|
  }

  lemma CountStep(n: nat, p: nat -> bool, q: nat -> bool)
    requires forall i: nat :: i < n ==> (p(i) <==> q(i))
    ensures Count(n + 1, q) == Count(n, p) + if q(n) then 1 else 0
  {
    var before, all := set i: nat | i < n && p(i), set i: nat | i < n + 1 && q(i);
    assert n !in before;
    if q(n) {
      assert all == before + {n};
    } else {
      assert all == before;
    }
  }

  /** The pair notices are exactly as many as the polls that change the pair key to a non-idle one. */
  lemma {:induction false} PairNoticesCountChanges(s: State, polls: seq<Poll>)
    ensures |PairRun(s, polls)| == Count(|polls|, (i: nat) => i < |polls| && PairChange(s, polls, i))
    decreases polls
  {
    if polls != [] {
      var n := |polls| - 1;
      PairNoticesCountChanges(s, polls[..n]);
      CountStep(n, (i: nat) => i < |polls[..n]| && PairChange(s, polls[..n], i),
                (i: nat) => i < |polls| && PairChange(s, polls, i));
      StateIsLastSeen(s, polls[..n]);
      hide Count;
    }
  }

  lemma DeniedChangeOfPrefix(s: State, polls: seq<Poll>, n: nat, i: nat)
    requires i < n <= |polls|
    ensures DeniedChange(s, polls[..n], i) <==> DeniedChange(s, polls, i)
  {
    KeyBeforeOfPrefix(s, polls, n, i);
  }

  lemma LastUnlockNotices(s: State, polls: seq<Poll>)
    requires polls != []
    ensures var n := |polls| - 1;
            |UnlockNotices(StateAfter(s, polls[..n]).outcomeKey, polls[n].last)|
            == if DeniedChange(s, polls, n) then 1 else 0
  {
    var n := |polls| - 1;
    StateIsLastSeen(s, polls[..n]);
    KeyBeforeOfPrefix(s, polls, n, n);
  }

  /** The unlock notices are exactly as many as the polls that change the trailing outcome key to a denied one. */
  lemma {:induction false} UnlockNoticesCountChanges(s: State, polls: seq<Poll>)
    ensures |UnlockRun(s, polls)| == Count(|polls|, (i: nat) => i < |polls| && DeniedChange(s, polls, i))
    decreases polls
  {
    hide UnlockNotices, DeniedChange, KeyBefore, StateAfter;
    if polls != [] {
      var n := |polls| - 1;
      UnlockNoticesCountChanges(s, polls[..n]);
      LastUnlockNotices(s, polls);
      forall i: nat | i < n
        ensures DeniedChange(s, polls[..n], i) <==> DeniedChange(s, polls, i)
      {
        DeniedChangeOfPrefix(s, polls, n, i);
      }
      CountStep(n, (i: nat) => i < |polls[..n]| && DeniedChange(s, polls[..n], i),
                (i: nat) => i < |polls| && DeniedChange(s, polls, i));
      hide Count;
    }
  }

  // ----- the pair side without keys -----

  /** The pair key tells all pair states apart. */
  lemma PairKeyIsInjective(p: Pair, q: Pair)
    ensures PairKey(p) == PairKey(q) <==> p == q
    ensures PairKey(p) == None <==> p == Idle
  {
    var a, b := PairKey(p), PairKey(q);
    if p.Pending? && q.Pending? {
      assert a.value[8..] == p.passkey && b.value[8..] == q.passkey;
    } else if p.Paired? && q.Paired? {
      assert a.value[3..] == p.host && b.value[3..] == q.host;
    } else if p.Pending? && q.Paired? {
      assert a.value[0] == 'p' && b.value[0] == 'o';
    } else if p.Paired? && q.Pending? {
      assert a.value[0] == 'o' && b.value[0] == 'p';
    }
  }

  /** What a notice says tells pair states apart, and known reasons. */
  lemma NoticesTellApart(p: Pair, q: Pair)
    ensures PairBody(p) == PairBody(q) <==> p == q
    ensures PairBody(p) == None <==> p == Idle
    ensures Display(PeerRevoked) != Display(NoBond) && Display(PeerRevoked) != Display(AuthError)
    ensures Display(PeerRevoked) != Display(TransportError) && Display(NoBond) != Display(AuthError)
    ensures Display(NoBond) != Display(TransportError) && Display(AuthError) != Display(TransportError)
  {
    var a, b := PairBody(p), PairBody(q);
    if p.Pending? && q.Pending? {
      PendingText(p.passkey);
      PendingText(q.passkey);
      if a == b {
        BetweenSame("syauth: pair request — code ", p.passkey, q.passkey, ", click bar to accept");
      }
    } else if p.Paired? && q.Paired? {
      assert a.value[20..] == p.host && b.value[20..] == q.host;
    } else if p.Pending? && q.Paired? {
      assert a.value[12] == ' ' && b.value[12] == 'e';
    } else if p.Paired? && q.Pending? {
      assert a.value[12] == 'e' && b.value[12] == ' ';
    }
    assert "peer revoked"[0] == 'p' && "no bond"[0] == 'n' && "auth-err"[0] == 'a' && "transport-error"[0] == 't';
  }

  lemma PendingText(passkey: string)
    ensures PairBody(Pending(passkey)) == Some("syauth: pair request — code " + (passkey + ", click bar to accept"))
  {
    ConcatAssoc("syauth: pair request — code ", passkey, ", click bar to accept");
  }

  lemma BetweenSame(before: string, x: string, y: string, after: string)
    requires before + (x + after) == before + (y + after)
    ensures x == y
  {
    assert (before + (x + after))[|before|..] == x + after;
    assert (before + (y + after))[|before|..] == y + after;
    assert (x + after)[..|x|] == x && (y + after)[..|y|] == y;
  }

  // Poll i finds a pair state that is not idle and not the one before it.
  predicate NewPair(before: Pair, polls: seq<Poll>, i: nat)
    requires i < |polls|
  {
    polls[i].pair != Idle && polls[i].pair != if i == 0 then before else polls[i - 1].pair
  }

  /** Starting from a pair state, the pair notices are as many as the polls that find a new one that is not idle. */
  lemma PairNoticesCountNewPairs(s: State, before: Pair, polls: seq<Poll>)
    requires s.pairKey == PairKey(before)
    ensures |PairRun(s, polls)| == Count(|polls|, (i: nat) => i < |polls| && NewPair(before, polls, i))
  {
    PairNoticesCountChanges(s, polls);
    forall i: nat | i < |polls|
      ensures NewPair(before, polls, i) <==> PairChange(s, polls, i)
    {
      PairKeyIsInjective(polls[i].pair, if i == 0 then before else polls[i - 1].pair);
    }
    CountSame(|polls|, (i: nat) => i < |polls| && NewPair(before, polls, i),
              (i: nat) => i < |polls| && PairChange(s, polls, i));
  }

  lemma CountSame(n: nat, p: nat -> bool, q: nat -> bool)
    requires forall i: nat :: i < n ==> (p(i) <==> q(i))
    ensures Count(n, p) == Count(n, q)
  {
    assert (set i: nat | i < n && p(i)) == (set i: nat | i < n && q(i));
  }

  // ----- the cache file -----

  function Save(s: State): string {
    "pair=" + KeyText(s.pairKey) + "\n" + "outcome=" + KeyText(s.outcomeKey) + "\n"
  }

  function KeyText(k: Option<string>): string {
    if k.Some? then k.value else ""
  }

  function AsKey(v: string): Option<string> {
    if v == "" then None else Some(v)
  }

  function LoadLine(s: State, line: string): State {
    var pair, outcome := StripPrefix(line, "pair="), StripPrefix(line, "outcome=");
    if pair.Some? then s.(pairKey := AsKey(pair.value))
    else if outcome.Some? then s.(outcomeKey := AsKey(outcome.value))
    else s
  }

  function LoadLines(s: State, lines: seq<string>): State {
    if lines == [] then s else LoadLine(LoadLines(s, lines[..|lines| - 1]), lines[|lines| - 1])
  }

  function Load(body: string): State {
    LoadLines(State(None, None), Lines(body))
  }

  // A key the cache can hold: not empty, no newline, no carriage return at the end.
  predicate Storable(k: Option<string>) {
    k.Some? ==> k.value != "" && '\n' !in k.value && k.value[|k.value| - 1] != '\r'
  }

  predicate OneLine(k: Option<string>) {
    k.Some? ==> k.value != "" && '\n' !in k.value
  }

  lemma {:induction false} LinesHaveNoNewline(s: string)
    ensures forall i :: 0 <= i < |Lines(s)| ==> '\n' !in Lines(s)[i]
    decreases |s|
  {
    var i := IndexOf(s, '\n');
    if i < |s| {
      LinesHaveNoNewline(s[i + 1..]);
    }
  }

  // Whatever the file says, loaded keys are non-empty and free of newlines.
  lemma {:induction false} LoadedKeysAreOneLine(s: State, lines: seq<string>)
    requires OneLine(s.pairKey) && OneLine(s.outcomeKey)
    requires forall i :: 0 <= i < |lines| ==> '\n' !in lines[i]
    ensures OneLine(LoadLines(s, lines).pairKey) && OneLine(LoadLines(s, lines).outcomeKey)
  {
    if lines != [] {
      LoadedKeysAreOneLine(s, lines[..|lines| - 1]);
    }
  }

  // What a saved one-line key comes back as.
  function Reread(k: Option<string>): Option<string> {
    AsKey(StripReturn(KeyText(k)))
  }

  lemma LinesOfTwo(first: string, second: string)
    requires '\n' !in first && '\n' !in second
    ensures Lines(first + "\n" + (second + "\n")) == [StripReturn(first), StripReturn(second)]
  {
    LinesStep(first, second + "\n");
    LinesStep(second, "");
    assert second + "\n" + "" == second + "\n";
    assert Lines("") == [];
    hide Lines, StripReturn;
  }

  lemma TwoLines(a: string, b: string)
    requires '\n' !in a && '\n' !in b
    ensures Lines("pair=" + a + "\n" + "outcome=" + b + "\n") == [StripReturn("pair=" + a), StripReturn("outcome=" + b)]
  {
    hide Lines, StripReturn;
    var first, second := "pair=" + a, "outcome=" + b;
    LinesOfTwo(first, second);
    assert first + "\n" + (second + "\n") == "pair=" + a + "\n" + "outcome=" + b + "\n";
  }

  lemma StripKeepsPrefix(prefix: string, v: string)
    requires prefix != "" && prefix[|prefix| - 1] != '\r'
    ensures StripReturn(prefix + v) == prefix + StripReturn(v)
  {
  }

  lemma LoadTwoLines(a: string, b: string)
    ensures LoadLines(State(None, None), ["pair=" + a, "outcome=" + b]) == State(AsKey(a), AsKey(b))
  {
    var one, two := "pair=" + a, "outcome=" + b;
    LoadOneLine("pair=", a);
    LoadOneLine("outcome=", b);
    assert two[0] == 'o' && "pair="[0] == 'p';
    assert two[..5][0] == 'o';
    assert StripPrefix(two, "pair=") == None;
    hide StripPrefix;
    assert [one, two][..1] == [one] && [one][..0] == [];
    assert LoadLines(State(None, None), [one]) == State(AsKey(a), None);
  }

  lemma LoadOfSaved(s: State)
    requires OneLine(s.pairKey) && OneLine(s.outcomeKey)
    ensures Load(Save(s)) == State(Reread(s.pairKey), Reread(s.outcomeKey))
  {
    hide Lines, StripReturn, LoadLines;
    var a, b := KeyText(s.pairKey), KeyText(s.outcomeKey);
    TwoLines(a, b);
    StripKeepsPrefix("pair=", a);
    StripKeepsPrefix("outcome=", b);
    LoadTwoLines(StripReturn(a), StripReturn(b));
  }

  lemma LoadOneLine(prefix: string, v: string)
    ensures StripPrefix(prefix + v, prefix) == Some(v)
  {
  }

  /**
   Saving and reloading preserves the state exactly when each key is non-empty, one line, and without a trailing
   carriage return.
   */
  lemma CacheRoundTripsIff(s: State)
    ensures Load(Save(s)) == s <==> Storable(s.pairKey) && Storable(s.outcomeKey)
  {
    if OneLine(s.pairKey) && OneLine(s.outcomeKey) {
      LoadOfSaved(s);
    } else {
      LinesHaveNoNewline(Save(s));
      LoadedKeysAreOneLine(State(None, None), Lines(Save(s)));
    }
  }

  // Each poll is its own process: load, dispatch, save.
  function CachedRun(cache: string, polls: seq<Poll>): (string, seq<Notice>)
    decreases polls
  {
    if polls == [] then (cache, [])
    else
      var n := |polls| - 1;
      var (body, notices) := CachedRun(cache, polls[..n]);
      var s := Load(body);
      (Save(After(s, polls[n])), notices + PairNotices(s.pairKey, polls[n].pair)
        + UnlockNotices(s.outcomeKey, polls[n].last))
  }

  function MemoryRun(s: State, polls: seq<Poll>): seq<Notice>
    decreases polls
  {
    if polls == [] then []
    else
      var n := |polls| - 1;
      var before := StateAfter(s, polls[..n]);
      MemoryRun(s, polls[..n]) + PairNotices(before.pairKey, polls[n].pair)
        + UnlockNotices(before.outcomeKey, polls[n].last)
  }

  predicate StorablePoll(p: Poll) {
    Storable(PairKey(p.pair)) && (p.last.Some? ==> Storable(Some(UnlockKey(p.last.value))))
  }

  /** Reloading between polls changes no notification, as long as every key met is storable. */
  lemma {:induction false} ReloadingChangesNothing(s: State, polls: seq<Poll>)
    requires Storable(s.pairKey) && Storable(s.outcomeKey)
    requires forall i :: 0 <= i < |polls| ==> StorablePoll(polls[i])
    ensures CachedRun(Save(s), polls) == (Save(StateAfter(s, polls)), MemoryRun(s, polls))
    ensures Storable(StateAfter(s, polls).pairKey) && Storable(StateAfter(s, polls).outcomeKey)
    decreases polls
  {
    hide Save, Load, Storable;
    if polls != [] {
      var n := |polls| - 1;
      ReloadingChangesNothing(s, polls[..n]);
      CacheRoundTripsIff(StateAfter(s, polls[..n]));
      assert StorablePoll(polls[n]);
    }
  }

  // The pair notices among some notices, or the others.
  function Only(notices: seq<Notice>, pair: bool): seq<Notice> {
    if notices == [] then []
    else
      var n := |notices| - 1;
      Only(notices[..n], pair) + if notices[n].PairNotice? == pair then [notices[n]] else []
  }

  lemma {:induction false} OnlyConcat(a: seq<Notice>, b: seq<Notice>, pair: bool)
    ensures Only(a + b, pair) == Only(a, pair) + Only(b, pair)
  {
    if b == [] {
      assert a + b == a;
    } else {
      var n := |b| - 1;
      OnlyConcat(a, b[..n], pair);
      InitOfConcat(a, b);
    }
  }

  lemma OnlyOfOnePoll(s: State, p: Poll)
    ensures var pairs, unlocks := PairNotices(s.pairKey, p.pair), UnlockNotices(s.outcomeKey, p.last);
            && Only(pairs + unlocks, true) == pairs && Only(pairs + unlocks, false) == unlocks
  {
    var pairs, unlocks := PairNotices(s.pairKey, p.pair), UnlockNotices(s.outcomeKey, p.last);
    OnlyConcat(pairs, unlocks, true);
    OnlyConcat(pairs, unlocks, false);
    assert Only([], true) == [] && Only([], false) == [];
    assert |pairs| == 1 ==> pairs[..0] == [];
    assert |unlocks| == 1 ==> unlocks[..0] == [];
  }

  // The pair notices of a run in memory are `PairRun`, and the others `UnlockRun`.
  lemma {:induction false} RunSeparates(s: State, polls: seq<Poll>)
    ensures Only(MemoryRun(s, polls), true) == PairRun(s, polls)
            && Only(MemoryRun(s, polls), false) == UnlockRun(s, polls)
    decreases polls
  {
    hide PairNotices, UnlockNotices, StateAfter;
    if polls != [] {
      var n := |polls| - 1;
      RunSeparates(s, polls[..n]);
      var before := StateAfter(s, polls[..n]);
      OnlyOfOnePoll(before, polls[n]);
      var pairs, unlocks := PairNotices(before.pairKey, polls[n].pair), UnlockNotices(before.outcomeKey, polls[n].last);
      assert MemoryRun(s, polls) == MemoryRun(s, polls[..n]) + (pairs + unlocks);
      hide Only, MemoryRun;
      OnlyConcat(MemoryRun(s, polls[..n]), pairs + unlocks, true);
      OnlyConcat(MemoryRun(s, polls[..n]), pairs + unlocks, false);
    }
  }

  /**
   Over any polls, each its own process that reloads the cache file, the notices are as many pair notices as there
   are polls that find a new pair state that is not idle, and as many unlock notices as changes of the trailing
   outcome key to a denied one.
   */
  lemma CachedNoticesCountChanges(s: State, before: Pair, polls: seq<Poll>)
    requires s.pairKey == PairKey(before) && Storable(s.pairKey) && Storable(s.outcomeKey)
    requires forall i :: 0 <= i < |polls| ==> StorablePoll(polls[i])
    ensures var notices := CachedRun(Save(s), polls).1;
            && |Only(notices, true)| == Count(|polls|, (i: nat) => i < |polls| && NewPair(before, polls, i))
            && |Only(notices, false)| == Count(|polls|, (i: nat) => i < |polls| && DeniedChange(s, polls, i))
  {
    ReloadingChangesNothing(s, polls);
    RunSeparates(s, polls);
    PairNoticesCountNewPairs(s, before, polls);
    UnlockNoticesCountChanges(s, polls);
    hide *;
  }

  // ----- keys identify outcomes -----

  // The number a decimal numeral stands for.
  function NumberOf(s: string): int {
    if s == [] then 0 else 10 * NumberOf(s[..|s| - 1]) + (s[|s| - 1] as int - 48)
  }

  lemma {:induction false} DecimalReadsBack(n: nat)
    ensures NumberOf(Decimal(n)) == n && (n > 0 ==> Decimal(n)[0] != '0')
    ensures forall i :: 0 <= i < |Decimal(n)| ==> 48 <= Decimal(n)[i] as int <= 57
  {
    if n >= 10 {
      DecimalReadsBack(n / 10);
      assert Decimal(n)[..|Decimal(n)| - 1] == Decimal(n / 10);
    } else {
      assert Decimal(n)[..0] == [];
    }
  }

  /** An outcome key is the verdict, the nonce and the end time in decimal, with bars between. */
  lemma KeyIsWritten(u: Unlock)
    ensures exists digits ::
              && UnlockKey(u) == (if u.kind.Ok? then "ok" else "denied:" + Display(u.kind.reason))
                                 + "|" + u.nonce + "|" + digits
              && NumberOf(digits) == u.endMs && (u.endMs > 0 ==> digits[0] != '0')
              && forall i :: 0 <= i < |digits| ==> 48 <= digits[i] as int <= 57
  {
    DecimalReadsBack(u.endMs);
  }

  lemma DecimalIsInjective(a: nat, b: nat)
    requires Decimal(a) == Decimal(b)
    ensures a == b
  {
    DecimalReadsBack(a);
    DecimalReadsBack(b);
  }

  // Two ways of splitting at the last bar are one.
  lemma LastBar(a: string, x: string, b: string, y: string)
    requires a + "|" + x == b + "|" + y && '|' !in x && '|' !in y
    ensures a == b && x == y
  {
    var s := a + "|" + x;
    assert s[|a|] == '|' && s[|b|] == '|';
    assert forall k :: |a| < k < |s| ==> s[k] == x[k - |a| - 1];
    assert forall k :: |b| < k < |s| ==> s[k] == y[k - |b| - 1];
    assert |a| == |b|;
    assert s[..|a|] == a && s[..|b|] == b && s[|a| + 1..] == x && s[|b| + 1..] == y;
  }

  /** With nonces free of '|', equal keys mean the same displayed verdict, nonce and end time. */
  lemma EqualKeysEqualOutcomes(u: Unlock, v: Unlock)
    requires '|' !in u.nonce && '|' !in v.nonce && UnlockKey(u) == UnlockKey(v)
    ensures Verdict(u.kind) == Verdict(v.kind) && u.nonce == v.nonce && u.endMs == v.endMs
    ensures u.kind.Ok? <==> v.kind.Ok?
  {
    LastBar(Verdict(u.kind) + "|" + u.nonce, Decimal(u.endMs), Verdict(v.kind) + "|" + v.nonce, Decimal(v.endMs));
    LastBar(Verdict(u.kind), u.nonce, Verdict(v.kind), v.nonce);
    DecimalIsInjective(u.endMs, v.endMs);
    assert "ok"[0] != "denied:"[0];
    assert u.kind.Denied? ==> Verdict(u.kind)[0] == 'd';
    assert v.kind.Denied? ==> Verdict(v.kind)[0] == 'd';
  }
}
