/** Colon-separated `nmcli -t` lines with backslash escapes. */
module TerseFields {
  import opened Basics

  // The parser's state: finished fields, the field so far, and whether a backslash is pending.
  datatype Scan = Scan(parts: seq<string>, cur: string, esc: bool)

  function Next(s: Scan, c: char): Scan {
    if s.esc then Scan(s.parts, s.cur + [c], false)
    else if c == '\\' then s.(esc := true)
    else if c == ':' then Scan(s.parts + [s.cur], "", false)
    else s.(cur := s.cur + [c])
  }

  function ScanAll(s: Scan, line: string): Scan
    decreases line
  {
    if line == [] then s else ScanAll(Next(s, line[0]), line[1..])
  }

  function Parse(line: string): seq<string> {
    var end := ScanAll(Scan([], "", false), line);
    end.parts + [end.cur]
  }

  /** The loop over characters. */
  method ParseColonFields(line: string) returns (parts: seq<string>)
    ensures parts == Parse(line)
  {
    var cur, esc := "", false;
    parts := [];
    for i := 0 to |line|
      invariant ScanAll(Scan([], "", false), line) == ScanAll(Scan(parts, cur, esc), line[i..])
    {
      var c := line[i];
      if esc {
        cur, esc := cur + [c], false;
      } else if c == '\\' {
        esc := true;
      } else if c == ':' {
        parts, cur := parts + [cur], "";
      } else {
        cur := cur + [c];
      }
    }
    parts := parts + [cur];
  }

  function EscapeChar(c: char): string {
    if c == ':' || c == '\\' then ['\\', c] else [c]
  }

  // One field with its colons and backslashes escaped.
  function Escape(field: string): string {
    if field == [] then [] else EscapeChar(field[0]) + Escape(field[1..])
  }

  function Join(fields: seq<string>): string
    requires fields != []
  {
    if |fields| == 1 then Escape(fields[0]) else Escape(fields[0]) + ":" + Join(fields[1..])
  }

  lemma {:induction false} ScanConcat(s: Scan, a: string, b: string)
    ensures ScanAll(s, a + b) == ScanAll(ScanAll(s, a), b)
    decreases a
  {
    if a == [] {
      assert a + b == b;
    } else {
      ScanConcat(Next(s, a[0]), a[1..], b);
      assert (a + b)[1..] == a[1..] + b;
    }
  }

  lemma ScanOne(s: Scan, c: char)
    ensures ScanAll(s, [c]) == Next(s, c)
  {
    assert [c][1..] == [];
  }

  lemma ScanEscapedChar(s: Scan, c: char)
    requires !s.esc
    ensures ScanAll(s, EscapeChar(c)) == s.(cur := s.cur + [c])
  {
    if c == ':' || c == '\\' {
      ScanConcat(s, ['\\'], [c]);
      ScanOne(s, '\\');
      ScanOne(s.(esc := true), c);
      assert EscapeChar(c) == ['\\'] + [c];
    } else {
      ScanOne(s, c);
    }
  }

  // Scanning an escaped field appends it to the field so far.
  lemma {:induction false} ScanEscaped(s: Scan, field: string)
    requires !s.esc
    ensures ScanAll(s, Escape(field)) == s.(cur := s.cur + field)
    decreases field
  {
    if field == [] {
      assert s.cur + field == s.cur;
    } else {
      hide ScanAll, EscapeChar;
      var c, rest := field[0], field[1..];
      ScanConcat(s, EscapeChar(c), Escape(rest));
      ScanEscapedChar(s, c);
      ScanEscaped(s.(cur := s.cur + [c]), rest);
      ConcatAssoc(s.cur, [c], rest);
      assert field == [c] + rest;
    }
  }

  lemma {:induction false} ScanJoined(parts: seq<string>, fields: seq<string>)
    requires fields != []
    ensures var end := ScanAll(Scan(parts, "", false), Join(fields)); end.parts + [end.cur] == parts + fields
    decreases fields
  {
    var s, f := Scan(parts, "", false), fields[0];
    ScanEscaped(s, f);
    assert "" + f == f;
    if |fields| > 1 {
      ScanConcat(s, Escape(f) + ":", Join(fields[1..]));
      ScanConcat(s, Escape(f), ":");
      assert ":"[1..] == [];
      assert ScanAll(s, Escape(f) + ":") == Scan(parts + [f], "", false);
      ScanJoined(parts + [f], fields[1..]);
      assert parts + [f] + fields[1..] == parts + fields;
    }
  }

  /** A backslash at the end of a line with nothing pending is dropped. */
  lemma TrailingBackslash(line: string)
    requires !ScanAll(Scan([], "", false), line).esc
    ensures Parse(line + "\\") == Parse(line)
  {
    ScanConcat(Scan([], "", false), line, "\\");
    ScanOne(ScanAll(Scan([], "", false), line), '\\');
    hide ScanAll;
  }

  /** Parsing undoes escaped joining, for every non-empty list of fields. */
  lemma ParseUndoesJoin(fields: seq<string>)
    requires fields != []
    ensures Parse(Join(fields)) == fields
  {
    ScanJoined([], fields);
    assert [] + fields == fields;
  }
}
