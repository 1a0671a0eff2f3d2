/**
 Lines of the PolicyKit authentication helper: the escape decoder, against the escaping the
 helper applies (glib's g_strescape), and the event a line stands for.
 */
module HelperLine {
  import opened Basics
  import opened Text

  datatype Event = Prompt(text: string, echo: bool) | Info(text: string) | Error(text: string) | Complete(success: bool)

  const BACKSLASH: Byte := 92

  predicate IsOctal(b: Byte) {
    48 <= b <= 55
  }

  // The byte a letter after a backslash stands for.
  function Unletter(b: Byte): Byte {
    if b == 110 then 10        // n
    else if b == 114 then 13   // r
    else if b == 116 then 9    // t
    else if b == 98 then 8     // b
    else if b == 102 then 12   // f
    else if b == 118 then 11   // v
    else b
  }

  // Value and length of the octal digits, at most three, that start `s`.
  function Octal(s: seq<Byte>): (r: (nat, nat))
    requires s != [] && IsOctal(s[0])
    ensures 1 <= r.1 <= |s|
  {
    var d0: nat := s[0] as nat - 48;
    if |s| < 2 || !IsOctal(s[1]) then (d0, 1)
    else
      var d1: nat := d0 * 8 + (s[1] as nat - 48);
      if |s| < 3 || !IsOctal(s[2]) then (d1, 2) else (d1 * 8 + (s[2] as nat - 48), 3)
  }

  // The decoded bytes; None for a backslash at the end or an octal value above 255.
  function Unescape(s: seq<Byte>): Option<seq<Byte>> {
    if s == [] then Some([])
    else if s[0] != BACKSLASH then Prepend(s[0], Unescape(s[1..]))
    else if |s| < 2 then None
    else if IsOctal(s[1]) then
      var (value, n) := Octal(s[1..]);
      if value > 255 then None else Prepend(value, Unescape(s[1 + n..]))
    else Prepend(Unletter(s[1]), Unescape(s[2..]))
  }

  function Prepend(b: Byte, rest: Option<seq<Byte>>): Option<seq<Byte>> {
    if rest.None? then None else Some([b] + rest.value)
  }

  function Classify(line: string): Option<Event> {
    if StartsWith(line, "PAM_PROMPT_ECHO_OFF ") then Some(Prompt(line[20..], false))
    else if StartsWith(line, "PAM_PROMPT_ECHO_ON ") then Some(Prompt(line[19..], true))
    else if line == "SUCCESS" then Some(Complete(true))
    else if line == "FAILURE" then Some(Complete(false))
    else if StartsWith(line, "PAM_TEXT_INFO ") then Some(Info(line[14..]))
    else if StartsWith(line, "PAM_ERROR_MSG ") then Some(Error(line[14..]))
    else None
  }

  // Decoding as UTF-8, with the encoder it undoes.
  datatype Utf8 = Utf8(encode: string -> seq<Byte>, decode: seq<Byte> -> Option<string>)

  function Parse(utf8: Utf8, line: seq<Byte>): Option<Event> {
    var bytes := Unescape(line);
    if bytes.None? then None
    else
      var text := utf8.decode(bytes.value);
      if text.None? then None else Classify(text.value)
  }

  // One unescaping step at position `at`.
  lemma UnescapeAt(line: seq<Byte>, at: nat)
    requires at < |line|
    ensures line[at] != BACKSLASH ==> Unescape(line[at..]) == Prepend(line[at], Unescape(line[at + 1..]))
    ensures line[at] == BACKSLASH && at + 1 == |line| ==> Unescape(line[at..]) == None
    ensures line[at] == BACKSLASH && at + 1 < |line| && !IsOctal(line[at + 1]) ==>
              Unescape(line[at..]) == Prepend(Unletter(line[at + 1]), Unescape(line[at + 2..]))
    ensures line[at] == BACKSLASH && at + 1 < |line| && IsOctal(line[at + 1]) ==>
              var (value, n) := Octal(line[at + 1..]);
              Unescape(line[at..]) == if value > 255 then None else Prepend(value, Unescape(line[at + 1 + n..]))
  {
    var rest := line[at..];
    assert rest[1..] == line[at + 1..];
    if |rest| > 1 {
      assert rest[2..] == line[at + 2..];
      if IsOctal(rest[1]) {
        var n := Octal(rest[1..]).1;
        hide Octal;
        assert rest[1 + n..] == line[at + 1 + n..];
      }
    }
  }

  /** The byte loop with its look-ahead for octal digits, then the classification. */
  method ParseLine(utf8: Utf8, line: seq<Byte>) returns (event: Option<Event>)
    ensures event == Parse(utf8, line)
  {
    hide Classify, Unescape, Unletter;
    var bytes: seq<Byte>, i := [], 0;
    AfterNothing(line);
    while i < |line|
      invariant i <= |line|
      invariant Unescape(line) == After(bytes, Unescape(line[i..]))
    {
      UnescapeAt(line, i);
      ghost var start := i;
      var b := line[i];
      i := i + 1;
      if b != BACKSLASH {
        AfterPrepend(bytes, b, Unescape(line[i..]));
        bytes := bytes + [b];
        continue;
      }
      if i == |line| {
        return None;
      }
      var escaped := line[i];
      i := i + 1;
      if IsOctal(escaped) {
        var octal: nat := escaped as nat - 48;
        if i < |line| && IsOctal(line[i]) {
          octal := octal * 8 + (line[i] as nat - 48);
          i := i + 1;
          if i < |line| && IsOctal(line[i]) {
            octal := octal * 8 + (line[i] as nat - 48);
            i := i + 1;
          }
        }
        assert Octal(line[start + 1..]) == (octal, i - start - 1);
        if octal > 255 {
          return None;
        }
        AfterPrepend(bytes, octal, Unescape(line[i..]));
        bytes := bytes + [octal];
      } else {
        AfterPrepend(bytes, Unletter(escaped), Unescape(line[i..]));
        bytes := bytes + [Unletter(escaped)];
      }
    }
    EndOfLine(bytes);
    assert line[i..] == [];
    var text := utf8.decode(bytes);
    return if text.None? then None else Classify(text.value);
  }

  function After(bytes: seq<Byte>, rest: Option<seq<Byte>>): Option<seq<Byte>> {
    if rest.None? then None else Some(bytes + rest.value)
  }

  lemma EndOfLine(bytes: seq<Byte>)
    ensures After(bytes, Unescape([])) == Some(bytes)
  {
    assert bytes + [] == bytes;
  }

  lemma AfterNothing(line: seq<Byte>)
    ensures Unescape(line) == After([], Unescape(line[0..]))
  {
    assert line[0..] == line;
    if Unescape(line).Some? {
      assert [] + Unescape(line).value == Unescape(line).value;
    }
  }

  lemma AfterPrepend(bytes: seq<Byte>, b: Byte, rest: Option<seq<Byte>>)
    ensures After(bytes, Prepend(b, rest)) == After(bytes + [b], rest)
  {
    if rest.Some? {
      assert bytes + ([b] + rest.value) == bytes + [b] + rest.value;
    }
  }

  // ----- the helper's escaping -----

  // The three octal digits of a byte.
  function Digits(b: Byte): (digits: seq<Byte>)
    ensures |digits| == 3 && IsOctal(digits[0])
  {
    [48 + b / 64, 48 + b / 8 % 8, 48 + b % 8]
  }

  // g_strescape: letters for the common controls, quote and backslash escaped, octal for the rest
  // outside printable ASCII.
  function EscapeByte(b: Byte): seq<Byte> {
    if b == 8 then [BACKSLASH, 98]
    else if b == 12 then [BACKSLASH, 102]
    else if b == 10 then [BACKSLASH, 110]
    else if b == 13 then [BACKSLASH, 114]
    else if b == 9 then [BACKSLASH, 116]
    else if b == 11 then [BACKSLASH, 118]
    else if b == BACKSLASH || b == 34 then [BACKSLASH, b]
    else if b < 32 || b >= 127 then [BACKSLASH] + Digits(b)
    else [b]
  }

  function Escape(s: seq<Byte>): seq<Byte> {
    if s == [] then [] else EscapeByte(s[0]) + Escape(s[1..])
  }

  lemma UnescapeOne(b: Byte, tail: seq<Byte>)
    ensures Unescape(EscapeByte(b) + tail) == Prepend(b, Unescape(tail))
  {
    EscapeShape(b);
    var e := EscapeByte(b);
    var s := e + tail;
    UnescapeAt(s, 0);
    hide Unescape, EscapeByte, Unletter, Octal, Digits;
    assert s[0..] == s && s[|e|..] == tail;
    if |e| == 4 {
      EscapedDigits(b, tail);
      assert s[1..] == Digits(b) + tail;
    }
  }

  lemma EscapeShape(b: Byte)
    ensures var e := EscapeByte(b);
            || (e == [b] && b != BACKSLASH)
            || (|e| == 2 && e[0] == BACKSLASH && !IsOctal(e[1]) && Unletter(e[1]) == b)
            || (|e| == 4 && e == [BACKSLASH] + Digits(b))
  {
  }

  lemma EscapedDigits(b: Byte, tail: seq<Byte>)
    ensures IsOctal(Digits(b)[0]) && Octal(Digits(b) + tail) == (b as nat, 3)
  {
    assert (b / 64 * 8 + b / 8 % 8) * 8 + b % 8 == b;
  }

  /** A backslash before any other byte stands for that byte. */
  lemma OtherEscapes(b: Byte, tail: seq<Byte>)
    requires !IsOctal(b) && b != 110 && b != 114 && b != 116 && b != 98 && b != 102 && b != 118
    ensures Unescape([BACKSLASH, b] + tail) == Prepend(b, Unescape(tail))
  {
    var s := [BACKSLASH, b] + tail;
    UnescapeAt(s, 0);
    assert s[0..] == s && s[2..] == tail;
    hide Unescape;
  }

  /** Unescaping undoes the helper's escaping, for every byte string. */
  lemma {:induction false} UnescapeUndoesEscape(s: seq<Byte>)
    ensures Unescape(Escape(s)) == Some(s)
  {
    hide Unescape, EscapeByte;
    if s == [] {
      EndOfLine([]);
      assert Escape(s) == [];
    } else {
      UnescapeUndoesEscape(s[1..]);
      UnescapeOne(s[0], Escape(s[1..]));
      assert [s[0]] + s[1..] == s;
    }
  }

  // The line an event is sent as.
  function Line(e: Event): string {
    match e
    case Prompt(text, echo) => (if echo then "PAM_PROMPT_ECHO_ON " else "PAM_PROMPT_ECHO_OFF ") + text
    case Info(text) => "PAM_TEXT_INFO " + text
    case Error(text) => "PAM_ERROR_MSG " + text
    case Complete(success) => if success then "SUCCESS" else "FAILURE"
  }

  /** A line is an event only if it is the very line that event is sent as. */
  lemma ClassifiedIsSent(line: string)
    ensures Classify(line).Some? ==> Line(Classify(line).value) == line
  {
    if StartsWith(line, "PAM_PROMPT_ECHO_OFF ") {
      assert line == "PAM_PROMPT_ECHO_OFF " + line[20..];
    } else if StartsWith(line, "PAM_PROMPT_ECHO_ON ") {
      assert line == "PAM_PROMPT_ECHO_ON " + line[19..];
    } else if StartsWith(line, "PAM_TEXT_INFO ") {
      assert line == "PAM_TEXT_INFO " + line[14..];
    } else if StartsWith(line, "PAM_ERROR_MSG ") {
      assert line == "PAM_ERROR_MSG " + line[14..];
    }
  }

  lemma ClassifyUndoesLine(e: Event)
    ensures Classify(Line(e)) == Some(e)
  {
    var line := Line(e);
    assert "PAM_PROMPT_ECHO_OFF "[17] == 'F' && "PAM_PROMPT_ECHO_ON "[17] == 'N';
    assert |"PAM_PROMPT_ECHO_OFF "| == 20 && |"PAM_PROMPT_ECHO_ON "| == 19;
    assert "PAM_PROMPT_ECHO_OFF "[4] == 'P' && "PAM_PROMPT_ECHO_ON "[4] == 'P';
    assert "PAM_TEXT_INFO "[4] == 'T' && "PAM_ERROR_MSG "[4] == 'E';
    assert "SUCCESS"[0] == 'S' && "FAILURE"[0] == 'F' && "PAM_TEXT_INFO "[0] == 'P' && "PAM_ERROR_MSG "[0] == 'P';
    assert "PAM_PROMPT_ECHO_OFF "[0] == 'P' && "PAM_PROMPT_ECHO_ON "[0] == 'P';
    match e
    case Prompt(text, echo) =>
      assert line[0] == 'P' && line[17] == if echo then 'N' else 'F';
      assert line[..if echo then 19 else 20] == if echo then "PAM_PROMPT_ECHO_ON " else "PAM_PROMPT_ECHO_OFF ";
    case Info(text) =>
      assert line[..14] == "PAM_TEXT_INFO " && line[4] == 'T';
    case Error(text) =>
      assert line[..14] == "PAM_ERROR_MSG " && line[4] == 'E';
    case Complete(_) =>
  }

  /** Every event sent through the helper's encoding and escaping is parsed back. */
  lemma ParseUndoesSending(utf8: Utf8, e: Event)
    requires forall s :: utf8.decode(utf8.encode(s)) == Some(s)
    ensures Parse(utf8, Escape(utf8.encode(Line(e)))) == Some(e)
  {
    UnescapeUndoesEscape(utf8.encode(Line(e)));
    ClassifyUndoesLine(e);
  }

  /** A line completes the authentication only when it decodes to exactly the verdict, with nothing around it. */
  lemma CompletionIsExact(utf8: Utf8, line: seq<Byte>)
    ensures Parse(utf8, line) == Some(Complete(true)) <==>
            Unescape(line).Some? && utf8.decode(Unescape(line).value) == Some("SUCCESS")
  {
    ClassifyUndoesLine(Complete(true));
  }

  /** Three octal digits are refused exactly when they exceed one byte. */
  lemma OctalRefusedIff(d0: Byte, d1: Byte, d2: Byte, tail: seq<Byte>)
    requires IsOctal(d0) && IsOctal(d1) && IsOctal(d2) && Unescape(tail).Some?
    ensures Unescape([BACKSLASH, d0, d1, d2] + tail) == None <==> d0 > 51
  {
    var s := [BACKSLASH, d0, d1, d2] + tail;
    assert s[1..] == [d0, d1, d2] + tail && s[4..] == tail;
  }
}
