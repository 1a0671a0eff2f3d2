/** String operations of the standard library that several components rely on. */
module Text {
  import opened Basics

  predicate StartsWith(s: string, prefix: string) {
    |prefix| <= |s| && s[..|prefix|] == prefix
  }

  function StripPrefix(s: string, prefix: string): Option<string> {
    if StartsWith(s, prefix) then Some(s[|prefix|..]) else None
  }

  // Index of the first `c`, or |s|.
  function IndexOf(s: string, c: char): (i: nat)
    ensures i <= |s| && c !in s[..i]
    ensures i < |s| ==> s[i] == c
  {
    if s == [] || s[0] == c then 0 else 1 + IndexOf(s[1..], c)
  }

  // A line without its terminator: "\n", or "\r\n" when a newline follows.
  function StripReturn(line: string): string {
    if line != [] && line[|line| - 1] == '\r' then line[..|line| - 1] else line
  }

  // `str::lines`: the part after the last newline is a line only when not empty.
  function Lines(s: string): seq<string>
    decreases |s|
  {
    var i := IndexOf(s, '\n');
    if i < |s| then [StripReturn(s[..i])] + Lines(s[i + 1..])
    else if s == [] then [] else [s]
  }

  // The parts before and after the first double space.
  function SplitDoubleSpace(s: string): Option<(string, string)> {
    if |s| < 2 then None
    else if s[0] == ' ' && s[1] == ' ' then Some(("", s[2..]))
    else
      var later := SplitDoubleSpace(s[1..]);
      if later.None? then None else Some(([s[0]] + later.value.0, later.value.1))
  }

  lemma {:induction false} IndexOfFirst(line: string, c: char, rest: string)
    requires c !in line
    ensures IndexOf(line + [c] + rest, c) == |line|
  {
    if line != [] {
      IndexOfFirst(line[1..], c, rest);
      assert (line + [c] + rest)[1..] == line[1..] + [c] + rest;
    }
  }

  lemma LinesStep(line: string, rest: string)
    requires '\n' !in line
    ensures Lines(line + "\n" + rest) == [StripReturn(line)] + Lines(rest)
  {
    var s := line + "\n" + rest;
    IndexOfFirst(line, '\n', rest);
    assert s[..|line|] == line && s[|line| + 1..] == rest;
  }
}
