/** TOML basic strings: the printer of the manifest writer against a reader of TOML v1.0.0, section "String". */
module TomlString {
  import opened Basics

  function Hex(d: nat): char
    requires d < 16
  {
    if d < 10 then '0' + d as char else 'A' + (d - 10) as char
  }

  function HexValue(c: char): Option<nat> {
    if '0' <= c <= '9' then Some((c - '0') as nat)
    else if 'A' <= c <= 'F' then Some((c - 'A') as nat + 10)
    else if 'a' <= c <= 'f' then Some((c - 'a') as nat + 10)
    else None
  }

  // How the printer writes one character.
  function PrintChar(c: char): string {
    if c == '"' then "\\\""
    else if c == '\\' then "\\\\"
    else if c == '\n' then "\\n"
    else if c == '\r' then "\\r"
    else if c == '\t' then "\\t"
    else if c < ' ' then ['\\', 'u', '0', '0', Hex(c as nat / 16), Hex(c as nat % 16)]
    else [c]
  }

  function PrintChars(s: string): string {
    if s == [] then [] else PrintChar(s[0]) + PrintChars(s[1..])
  }

  function Quoted(s: string): string {
    "\"" + PrintChars(s) + "\""
  }

  /** The loop that pushes escapes. */
  method TomlStr(s: string) returns (out: string)
    ensures out == Quoted(s)
  {
    hide PrintChar;
    out := "\"";
    for i := 0 to |s|
      invariant out + PrintChars(s[i..]) == "\"" + PrintChars(s)
    {
      out := out + PrintChar(s[i]);
    }
    assert s[|s|..] == [];
    out := out + "\"";
  }

  // Characters a basic string may hold unescaped: tab, and no other control character.
  predicate Raw(c: char) {
    c == '\t' || (c >= ' ' && c as nat != 0x7F)
  }

  function ReadHex(s: string, n: nat): Option<nat>
    requires n <= |s|
  {
    if n == 0 then Some(0)
    else
      var high, low := ReadHex(s, n - 1), HexValue(s[n - 1]);
      if high.None? || low.None? then None else Some(high.value * 16 + low.value)
  }

  predicate ScalarValue(n: nat) {
    n < 0xD800 || 0xE000 <= n < 0x11_0000
  }

  // The rest of a basic string after its opening quote: the value, and what follows the closing quote.
  function ReadRest(s: string): (r: Option<(string, string)>)
    ensures r.Some? ==> |r.value.1| < |s|
    decreases |s|
  {
    if s == [] then None
    else if s[0] == '"' then Some(("", s[1..]))
    else if s[0] != '\\' then (if Raw(s[0]) then Cons(s[0], ReadRest(s[1..])) else None)
    else if |s| < 2 then None
    else if s[1] == 'b' then Cons(8 as char, ReadRest(s[2..]))
    else if s[1] == 't' then Cons('\t', ReadRest(s[2..]))
    else if s[1] == 'n' then Cons('\n', ReadRest(s[2..]))
    else if s[1] == 'f' then Cons(12 as char, ReadRest(s[2..]))
    else if s[1] == 'r' then Cons('\r', ReadRest(s[2..]))
    else if s[1] == '"' then Cons('"', ReadRest(s[2..]))
    else if s[1] == '\\' then Cons('\\', ReadRest(s[2..]))
    else
      var n := if s[1] == 'u' then 4 else if s[1] == 'U' then 8 else 0;
      if n == 0 || |s| < 2 + n then None
      else
        var code := ReadHex(s[2..], n);
        if code.None? || !ScalarValue(code.value) then None else Cons(code.value as char, ReadRest(s[2 + n..]))
  }

  function Cons(c: char, rest: Option<(string, string)>): Option<(string, string)> {
    if rest.None? then None else Some(([c] + rest.value.0, rest.value.1))
  }

  function Read(s: string): (r: Option<(string, string)>)
    ensures r.Some? ==> |r.value.1| < |s|
  {
    if s == [] || s[0] != '"' then None else ReadRest(s[1..])
  }

  predicate IsDelete(c: char) {
    c as nat == 0x7F
  }

  lemma ReadOne(c: char, tail: string)
    ensures ReadRest(PrintChar(c) + tail) == if IsDelete(c) then None else Cons(c, ReadRest(tail))
  {
    var p := PrintChar(c);
    var s := p + tail;
    if |p| == 1 {
      assert s[1..] == tail;
    } else if |p| == 2 {
      assert s[2..] == tail;
    } else {
      ReadControl(c, tail);
    }
  }

  // A control character comes back from its four hexadecimal digits.
  lemma ReadControl(c: char, tail: string)
    requires c < ' ' && c != '\n' && c != '\r' && c != '\t'
    ensures ReadRest(PrintChar(c) + tail) == Cons(c, ReadRest(tail))
  {
    var s := PrintChar(c) + tail;
    var n := c as nat;
    assert s[2..] == ['0', '0', Hex(n / 16), Hex(n % 16)] + tail && s[6..] == tail;
    assert HexValue(Hex(n / 16)) == Some(n / 16) && HexValue(Hex(n % 16)) == Some(n % 16);
    assert ReadHex(s[2..], 1) == Some(0);
    assert ReadHex(s[2..], 2) == Some(0);
    assert ReadHex(s[2..], 3) == Some(n / 16);
    assert ReadHex(s[2..], 4) == Some(n);
  }

  lemma {:induction false} ReadPrinted(s: string, tail: string)
    ensures ReadRest(PrintChars(s) + "\"" + tail)
         == if exists i :: 0 <= i < |s| && IsDelete(s[i]) then None else Some((s, tail))
  {
    hide PrintChar, IsDelete;
    if s == [] {
      assert PrintChars(s) + "\"" + tail == "\"" + tail;
      assert ("\"" + tail)[1..] == tail;
    } else {
      ReadPrinted(s[1..], tail);
      ReadOne(s[0], PrintChars(s[1..]) + "\"" + tail);
      assert PrintChars(s) + "\"" + tail == PrintChar(s[0]) + (PrintChars(s[1..]) + "\"" + tail);
      assert [s[0]] + s[1..] == s;
      if i :| 0 <= i < |s[1..]| && IsDelete(s[1..][i]) {
        assert IsDelete(s[i + 1]);
      }
      assert forall i :: 1 <= i < |s| ==> s[i] == s[1..][i - 1];
    }
  }

  /** A TOML reader gets the string back, and stops right after it, exactly when it has no delete character. */
  lemma ReaderUndoesPrinterIff(s: string, tail: string)
    ensures Read(Quoted(s) + tail) == Some((s, tail)) <==> forall i :: 0 <= i < |s| ==> !IsDelete(s[i])
    ensures (exists i :: 0 <= i < |s| && IsDelete(s[i])) ==> Read(Quoted(s) + tail) == None
  {
    ReadPrinted(s, tail);
    assert (Quoted(s) + tail)[1..] == PrintChars(s) + "\"" + tail;
  }

  // ----- arrays of strings -----

  function Items(xs: seq<string>): string {
    if xs == [] then "" else if |xs| == 1 then Quoted(xs[0]) else Quoted(xs[0]) + ", " + Items(xs[1..])
  }

  function QuotedArray(xs: seq<string>): string {
    "[" + Items(xs) + "]"
  }

  // What follows the newline that ends a comment.
  function AfterComment(s: string): (r: Option<string>)
    ensures r.Some? ==> |r.value| < |s|
  {
    if s == "" then None
    else if s[0] == '\n' then Some(s[1..])
    else if s[0] == '\r' then (if |s| > 1 && s[1] == '\n' then Some(s[2..]) else None)
    else if Raw(s[0]) then AfterComment(s[1..])
    else None
  }

  // What follows the white space, newlines and comments that may stand between the parts of an array.
  function SkipBlank(s: string): (r: string)
    ensures |r| <= |s|
    decreases |s|
  {
    if s == "" then s
    else if s[0] == ' ' || s[0] == '\t' || s[0] == '\n' then SkipBlank(s[1..])
    else if |s| > 1 && s[0] == '\r' && s[1] == '\n' then SkipBlank(s[2..])
    else if s[0] == '#' && AfterComment(s[1..]).Some? then SkipBlank(AfterComment(s[1..]).value)
    else s
  }

  // The strings of an array after its bracket or a comma, and what follows the closing bracket.
  function ReadValues(s: string): Option<(seq<string>, string)>
    decreases |s|
  {
    var at := SkipBlank(s);
    if at != "" && at[0] == ']' then Some(([], at[1..]))
    else
      var item := Read(at);
      if item.None? then None
      else
        var next := SkipBlank(item.value.1);
        if next == "" then None
        else if next[0] == ']' then Some(([item.value.0], next[1..]))
        else if next[0] != ',' then None
        else
          var rest := ReadValues(next[1..]);
          if rest.None? then None else Some(([item.value.0] + rest.value.0, rest.value.1))
  }

  // An array of basic strings (section "Array").
  function ReadArray(s: string): Option<(seq<string>, string)> {
    if s == [] || s[0] != '[' then None else ReadValues(s[1..])
  }

  predicate Clean(xs: seq<string>) {
    forall k, i :: 0 <= k < |xs| && 0 <= i < |xs[k]| ==> !IsDelete(xs[k][i])
  }

  lemma CleanUnfold(xs: seq<string>)
    requires xs != []
    ensures Clean(xs) <==> Clean([xs[0]]) && Clean(xs[1..])
  {
    if Clean([xs[0]]) && Clean(xs[1..]) {
      forall k, i | 0 <= k < |xs| && 0 <= i < |xs[k]|
        ensures !IsDelete(xs[k][i])
      {
        assert k == 0 ==> xs[k] == [xs[0]][0];
        assert k > 0 ==> xs[k] == xs[1..][k - 1];
      }
    }
  }

  // One printed item and what follows it.
  lemma ReadItem(x: string, tail: string)
    ensures SkipBlank(Quoted(x) + tail) == Quoted(x) + tail && (Quoted(x) + tail)[0] == '"'
    ensures Read(Quoted(x) + tail) == if Clean([x]) then Some((x, tail)) else None
  {
    ReaderUndoesPrinterIff(x, tail);
    assert [x][0] == x;
  }

  lemma SkipSpace(s: string)
    ensures ReadValues(" " + s) == ReadValues(s)
    ensures SkipBlank("]" + s) == "]" + s && SkipBlank("," + s) == "," + s
  {
    assert (" " + s)[1..] == s;
    assert SkipBlank(" " + s) == SkipBlank(s);
    hide SkipBlank, Read;
  }

  lemma ItemsUnfold(xs: seq<string>, tail: string)
    requires xs != []
    ensures Items(xs) + tail == if |xs| == 1 then Quoted(xs[0]) + tail
                                else Quoted(xs[0]) + ("," + (" " + (Items(xs[1..]) + tail)))
  {
    hide Quoted;
    if |xs| > 1 {
      var q, rest := Quoted(xs[0]), Items(xs[1..]);
      assert Items(xs) == q + ", " + rest;
      hide Items;
      ConcatAssoc(q + ", ", rest, tail);
      ConcatAssoc(q, ", ", rest + tail);
      Separator(rest + tail);
    }
  }

  lemma Separator(s: string)
    ensures ", " + s == "," + (" " + s)
  {
  }

  lemma {:induction false} ReadPrintedItems(xs: seq<string>, tail: string)
    requires xs != []
    ensures ReadValues(Items(xs) + ("]" + tail)) == if Clean(xs) then Some((xs, tail)) else None
  {
    hide ReadValues, Quoted, Clean, Items;
    CleanUnfold(xs);
    ItemsUnfold(xs, "]" + tail);
    if |xs| == 1 {
      LastItem(xs[0], tail);
      assert [xs[0]] == xs;
    } else {
      ReadPrintedItems(xs[1..], tail);
      OneItem(xs[0], Items(xs[1..]) + ("]" + tail));
      assert [xs[0]] + xs[1..] == xs;
    }
  }

  lemma LastItem(x: string, tail: string)
    ensures ReadValues(Quoted(x) + ("]" + tail)) == if Clean([x]) then Some(([x], tail)) else None
  {
    hide SkipBlank, Read, Clean, Quoted;
    ReadItem(x, "]" + tail);
    SkipSpace(tail);
    assert ("]" + tail)[1..] == tail;
  }

  lemma OneItem(x: string, rest: string)
    ensures var later := ReadValues(rest);
            ReadValues(Quoted(x) + ("," + (" " + rest)))
            == if !Clean([x]) || later.None? then None else Some(([x] + later.value.0, later.value.1))
  {
    hide SkipBlank, Read, Clean, Quoted;
    ReadItem(x, "," + (" " + rest));
    SkipSpace(" " + rest);
    SkipSpace(rest);
    assert ("," + (" " + rest))[1..] == " " + rest;
  }

  /** An array reads back, and reading stops right after it, exactly when no string has a delete character. */
  lemma ArrayRoundTripsIff(xs: seq<string>, tail: string)
    ensures ReadArray(QuotedArray(xs) + tail) == if Clean(xs) then Some((xs, tail)) else None
  {
    assert (QuotedArray(xs) + tail)[1..] == Items(xs) + ("]" + tail);
    if xs == [] {
      SkipSpace(tail);
      assert Items(xs) + ("]" + tail) == "]" + tail && ("]" + tail)[1..] == tail;
    } else {
      hide ReadValues;
      ReadPrintedItems(xs, tail);
    }
  }
}
