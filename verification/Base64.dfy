/** Base64 with padding, against the decoder of section 4 of RFC 4648. */
module Base64 {
  import opened Basics

  type Sextet = s: nat | s < 64

  // Entry `s` of the alphabet A-Z a-z 0-9 + / (table 1 of RFC 4648).
  function Letter(s: Sextet): char {
    var n: nat := s;
    if n < 26 then 'A' + n as char
    else if n < 52 then 'a' + (n - 26) as char
    else if n < 62 then '0' + (n - 52) as char
    else if n == 62 then '+' else '/'
  }

  // Value of a character in table 1 of RFC 4648.
  function ValueOf(c: char): Option<Sextet> {
    if 'A' <= c <= 'Z' then Some((c - 'A') as nat)
    else if 'a' <= c <= 'z' then Some((c - 'a') as nat + 26)
    else if '0' <= c <= '9' then Some((c - '0') as nat + 52)
    else if c == '+' then Some(62)
    else if c == '/' then Some(63)
    else None
  }

  lemma AlphabetIsTable(s: Sextet)
    ensures ValueOf(Letter(s)) == Some(s) && Letter(s) != '='
  {
  }

  // The four sextets of 24 bits.
  function Sextets(b0: Byte, b1: Byte, b2: Byte): (Sextet, Sextet, Sextet, Sextet) {
    var n: nat := b0 as nat * 0x1_0000 + b1 as nat * 0x100 + b2 as nat;
    (n / 0x4_0000 % 64, n / 0x1000 % 64, n / 64 % 64, n % 64)
  }

  // The four characters of one chunk of one, two or three bytes.
  function EncodeChunk(c: seq<Byte>): (out: string)
    requires 1 <= |c| <= 3
    ensures |out| == 4
  {
    var q := Sextets(c[0], if |c| > 1 then c[1] else 0, if |c| > 2 then c[2] else 0);
    [Letter(q.0), Letter(q.1), if |c| > 1 then Letter(q.2) else '=', if |c| > 2 then Letter(q.3) else '=']
  }

  function Encode(input: seq<Byte>): string {
    if input == [] then []
    else if |input| <= 3 then EncodeChunk(input)
    else EncodeChunk(input[..3]) + Encode(input[3..])
  }

  /** The loop over chunks of three. */
  method EncodeBytes(input: seq<Byte>) returns (out: string)
    ensures out == Encode(input)
  {
    hide EncodeChunk;
    out := "";
    var at := 0;
    while at < |input|
      invariant at <= |input|
      invariant out + Encode(input[at..]) == Encode(input)
    {
      var end := if at + 3 <= |input| then at + 3 else |input|;
      var chunk := input[at..end];
      if |input[at..]| <= 3 {
        assert chunk == input[at..] && input[end..] == [];
      } else {
        assert input[at..][..3] == chunk && input[at..][3..] == input[end..];
      }
      out := out + EncodeChunk(chunk);
      at := end;
    }
  }

  // The bytes of one group; '=' may stand for the last one or two characters.
  function DecodeGroup(g: string): Option<seq<Byte>>
    requires |g| == 4
  {
    var v0, v1, v2, v3 := ValueOf(g[0]), ValueOf(g[1]), ValueOf(g[2]), ValueOf(g[3]);
    if v0.None? || v1.None? then None
    else
      var b0: Byte := v0.value as nat * 4 + v1.value as nat / 16;
      if g[2] == '=' && g[3] == '=' then Some([b0])
      else if v2.None? then None
      else
        var b1: Byte := v1.value as nat % 16 * 16 + v2.value as nat / 4;
        if g[3] == '=' then Some([b0, b1])
        else if v3.None? then None
        else
          var b2: Byte := v2.value as nat % 4 * 64 + v3.value as nat;
          Some([b0, b1, b2])
  }

  // Whole groups; padding only in the last.
  function Decode(s: string): Option<seq<Byte>> {
    if s == [] then Some([])
    else if |s| < 4 then None
    else
      var first := DecodeGroup(s[..4]);
      if first.None? || (|s| > 4 && |first.value| < 3) then None
      else
        var rest := Decode(s[4..]);
        if rest.None? then None else Some(first.value + rest.value)
  }

  lemma SextetsSplitBytes(b0: Byte, b1: Byte, b2: Byte)
    ensures var q := Sextets(b0, b1, b2);
            && q.0 == b0 / 4
            && q.1 as nat == b0 as nat % 4 * 16 + b1 as nat / 16
            && q.2 as nat == b1 as nat % 16 * 4 + b2 as nat / 64
            && q.3 == b2 % 64
  {
    var x: nat, y: nat, z: nat := b0, b1, b2;
    Digits64(x / 4, x % 4 * 16 + y / 16, y % 16 * 4 + z / 64, z % 64);
  }

  lemma Digits64(a: nat, b: nat, c: nat, d: nat)
    requires a < 64 && b < 64 && c < 64 && d < 64
    ensures var n := ((a * 64 + b) * 64 + c) * 64 + d;
            n / 0x4_0000 % 64 == a && n / 0x1000 % 64 == b && n / 64 % 64 == c && n % 64 == d
  {
    var n := ((a * 64 + b) * 64 + c) * 64 + d;
    TakeLow((a * 64 + b) * 64 + c, d);
    TakeLow(a * 64 + b, c);
    TakeLow(a, b);
    assert n / 0x1000 == n / 64 / 64 && n / 0x4_0000 == n / 0x1000 / 64;
  }

  lemma TakeLow(q: nat, r: nat)
    requires r < 64
    ensures (q * 64 + r) % 64 == r && (q * 64 + r) / 64 == q
  {
  }

  lemma SextetsRejoin(b0: Byte, b1: Byte, b2: Byte)
    ensures var q := Sextets(b0, b1, b2);
            && q.0 as nat * 4 + q.1 as nat / 16 == b0
            && q.1 as nat % 16 * 16 + q.2 as nat / 4 == b1
            && q.2 as nat % 4 * 64 + q.3 as nat == b2
  {
    SextetsSplitBytes(b0, b1, b2);
    hide Sextets;
    var x: nat, y: nat, z: nat := b0, b1, b2;
    assert (x % 4 * 16 + y / 16) / 16 == x % 4 && (x % 4 * 16 + y / 16) % 16 == y / 16;
    assert (y % 16 * 4 + z / 64) / 4 == y % 16 && (y % 16 * 4 + z / 64) % 4 == z / 64;
  }

  lemma ChunkRoundTrips(c: seq<Byte>)
    requires 1 <= |c| <= 3
    ensures DecodeGroup(EncodeChunk(c)) == Some(c)
  {
    hide Sextets, ValueOf, Letter;
    var b1, b2 := if |c| > 1 then c[1] else 0, if |c| > 2 then c[2] else 0;
    var q := Sextets(c[0], b1, b2);
    SextetsRejoin(c[0], b1, b2);
    AlphabetIsTable(q.0);
    AlphabetIsTable(q.1);
    AlphabetIsTable(q.2);
    AlphabetIsTable(q.3);
    var g := EncodeChunk(c);
    assert g[0] == Letter(q.0) && g[1] == Letter(q.1);
    if |c| == 1 {
      assert c == [c[0]];
      assert DecodeGroup(g) == Some([c[0]]);
    } else if |c| == 2 {
      assert c == [c[0], c[1]];
    } else if |c| == 3 {
      assert c == [c[0], c[1], c[2]];
    }
  }

  /** Decoding undoes encoding, for every byte string; so no two have the same encoding. */
  lemma {:induction false} DecodeUndoesEncode(input: seq<Byte>)
    ensures Decode(Encode(input)) == Some(input)
  {
    hide EncodeChunk, DecodeGroup;
    if |input| > 3 {
      ChunkRoundTrips(input[..3]);
      DecodeUndoesEncode(input[3..]);
      assert Encode(input)[..4] == EncodeChunk(input[..3]) && Encode(input)[4..] == Encode(input[3..]);
      assert input[..3] + input[3..] == input;
    } else if input != [] {
      ChunkRoundTrips(input);
      assert Encode(input)[..4] == EncodeChunk(input) && Encode(input)[4..] == [];
      assert Decode([]) == Some([]) && input + [] == input;
    }
  }

  /** Four characters per started group of three bytes, and padding only among the last two characters. */
  lemma {:induction false} EncodingShape(input: seq<Byte>)
    ensures |Encode(input)| == (|input| + 2) / 3 * 4
    ensures forall i :: 0 <= i < |Encode(input)| && Encode(input)[i] == '=' ==>
              i >= |Encode(input)| - 2 && (|input| % 3 == 1 || (|input| % 3 == 2 && i == |Encode(input)| - 1))
  {
    hide EncodeChunk;
    if |input| > 3 {
      EncodingShape(input[3..]);
      ChunkShape(input[..3]);
      var head, tail, out := EncodeChunk(input[..3]), Encode(input[3..]), Encode(input);
      assert out == head + tail;
      hide Encode;
      OneGroupMore(|input[3..]|);
      forall i | 0 <= i < |out|
        ensures if i < 4 then out[i] == head[i] else out[i] == tail[i - 4]
      {
      }
    } else if input != [] {
      ChunkShape(input);
    }
  }

  lemma OneGroupMore(n: nat)
    ensures (n + 3 + 2) / 3 * 4 == (n + 2) / 3 * 4 + 4 && (n + 3) % 3 == n % 3
  {
    var q, r := n / 3, n % 3;
    assert (n + 2) / 3 == q + (if r == 0 then 0 else 1) && (n + 5) / 3 == q + 1 + (if r == 0 then 0 else 1);
  }

  lemma ChunkShape(c: seq<Byte>)
    requires 1 <= |c| <= 3
    ensures forall i :: 0 <= i < 4 ==> (EncodeChunk(c)[i] == '=' <==> i > |c|)
  {
    var q := Sextets(c[0], if |c| > 1 then c[1] else 0, if |c| > 2 then c[2] else 0);
    AlphabetIsTable(q.0);
    AlphabetIsTable(q.1);
    AlphabetIsTable(q.2);
    AlphabetIsTable(q.3);
    hide Sextets, ValueOf, Letter;
  }
}
