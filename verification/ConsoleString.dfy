/**
 Console values and messages (src/pslog.c, `pslog_buffer_append_console_string`
 and `pslog_buffer_append_console_escaped`) as functions, with a reader that
 undoes the former.
 */
module ConsoleString {
  import opened Bytes
  import JsonText

  /** A byte that forces quotation marks around the value. */
  predicate NeedsQuotes(ch: byte) {
    (0x09 <= ch <= 0x0d || ch == SPACE) || ch == EQUALS || ch == QUOTE || ch == BACKSLASH ||
    ch < 0x20 || ch == DEL || ch == ESC
  }

  predicate NoSpecials(s: bytes) {
    forall i :: 0 <= i < |s| ==> !NeedsQuotes(s[i])
  }

  /** `pslog_string_is_console_simple_measure`: empty text is not simple. */
  predicate Simple(s: bytes) {
    s != [] && NoSpecials(s)
  }

  predicate Control(ch: byte) {
    ch < 0x20 || ch == DEL
  }

  function HexEscape(ch: byte): bytes {
    [BACKSLASH, 0x78] + HexPair(ch)
  }

  function EscapeByte(ch: byte): (e: bytes)
    ensures e != []
  {
    if ch == QUOTE then [BACKSLASH, QUOTE]
    else if ch == BACKSLASH then [BACKSLASH, BACKSLASH]
    else if ch == NL then [BACKSLASH, 0x6e]
    else if ch == CR then [BACKSLASH, 0x72]
    else if ch == TAB then [BACKSLASH, 0x74]
    else if Control(ch) then HexEscape(ch)
    else [ch]
  }

  function Escape(s: bytes): bytes {
    if s == [] then [] else EscapeByte(s[0]) + Escape(s[1..])
  }

  /** The text of a string value. */
  function Value(s: bytes): bytes {
    if NoSpecials(s) then s else [QUOTE] + Escape(s) + [QUOTE]
  }

  /** The simple fast path, which emits the text as it stands, gives the same bytes. */
  lemma SimpleIsValue(s: bytes)
    requires Simple(s)
    ensures Value(s) == s
  {
  }

  /** A message: quotation marks and backslashes are left alone. */
  function MessageByte(ch: byte): bytes {
    if ch == QUOTE || ch == BACKSLASH then [ch] else EscapeByte(ch)
  }

  function Message(s: bytes): bytes {
    if s == [] then [] else MessageByte(s[0]) + Message(s[1..])
  }

  // ----- reading values back -----

  datatype Token = Token(text: bytes, rest: bytes)

  /** One character inside a quoted value, and what follows it. */
  function ReadChar(t: bytes): (r: Option<Token>)
    requires t != []
    ensures r.Some? ==> |r.value.rest| < |t| && |r.value.text| == 1
  {
    if t[0] != BACKSLASH then Some(Token([t[0]], t[1..]))
    else if |t| < 2 then None
    else if t[1] == QUOTE || t[1] == BACKSLASH then Some(Token([t[1]], t[2..]))
    else if t[1] == 0x6e then Some(Token([NL], t[2..]))
    else if t[1] == 0x72 then Some(Token([CR], t[2..]))
    else if t[1] == 0x74 then Some(Token([TAB], t[2..]))
    else if t[1] == 0x78 && |t| >= 4 && JsonText.HexValue(t[2]) >= 0 && JsonText.HexValue(t[3]) >= 0 then
      Some(Token([JsonText.HexValue(t[2]) * 16 + JsonText.HexValue(t[3])], t[4..]))
    else None
  }

  /** The inside of a quoted value and what follows the closing mark. */
  function ReadQuoted(t: bytes): (r: Option<Token>)
    ensures r.Some? ==> |r.value.rest| < |t|
    decreases |t|
  {
    if t == [] then None
    else if t[0] == QUOTE then Some(Token([], t[1..]))
    else
      match ReadChar(t)
      case None => None
      case Some(c) =>
        match ReadQuoted(c.rest)
        case None => None
        case Some(q) => Some(Token(c.text + q.text, q.rest))
  }

  /** A bare word runs to the next space or the end of the line. */
  function ReadBare(t: bytes): (r: Token)
    ensures |r.rest| <= |t|
  {
    if t == [] || t[0] == SPACE || t[0] == NL then Token([], t)
    else
      var r := ReadBare(t[1..]);
      Token([t[0]] + r.text, r.rest)
  }

  function ReadValue(t: bytes): (r: Option<Token>)
    ensures r.Some? ==> |r.value.rest| <= |t|
  {
    if t != [] && t[0] == QUOTE then ReadQuoted(t[1..]) else Some(ReadBare(t))
  }

  /** What may follow a value on a line without colours. */
  predicate Boundary(rest: bytes) {
    rest == [] || rest[0] == SPACE || rest[0] == NL
  }

  lemma ReadHexEscape(ch: byte, rest: bytes)
    ensures ReadChar(HexEscape(ch) + rest) == Some(Token([ch], rest))
  {
    var t := HexEscape(ch) + rest;
    assert t[0] == BACKSLASH && t[1] == 0x78 && t[2] == HexDigit(ch / 16) && t[3] == HexDigit(ch % 16);
    assert t[4..] == rest;
    assert JsonText.HexValue(HexDigit(ch / 16)) == ch / 16;
    assert JsonText.HexValue(HexDigit(ch % 16)) == ch % 16;
  }

  lemma ReadEscapedByte(ch: byte, rest: bytes)
    ensures ReadChar(EscapeByte(ch) + rest) == Some(Token([ch], rest))
    ensures EscapeByte(ch)[0] != QUOTE
  {
    ReadHexEscape(ch, rest);
    var e := EscapeByte(ch);
    if |e| == 1 {
      Tail(ch, rest);
    } else if |e| == 2 {
      assert (e + rest)[2..] == rest;
    }
  }

  lemma {:induction false} ReadEscaped(s: bytes, rest: bytes)
    ensures ReadQuoted(Escape(s) + ([QUOTE] + rest)) == Some(Token(s, rest))
  {
    if s == [] {
      assert Escape(s) + ([QUOTE] + rest) == [QUOTE] + rest;
      Tail(QUOTE, rest);
    } else {
      hide ReadChar, EscapeByte;
      var after := Escape(s[1..]) + ([QUOTE] + rest);
      ReadEscaped(s[1..], rest);
      ReadEscapedByte(s[0], after);
      Assoc(EscapeByte(s[0]), Escape(s[1..]), [QUOTE] + rest);
      assert (EscapeByte(s[0]) + after)[0] == EscapeByte(s[0])[0];
      assert [s[0]] + s[1..] == s;
    }
  }

  lemma {:induction false} ReadBareText(s: bytes, rest: bytes)
    requires NoSpecials(s) && Boundary(rest)
    ensures ReadBare(s + rest) == Token(s, rest)
  {
    if s == [] {
      assert s + rest == rest;
    } else {
      ReadBareText(s[1..], rest);
      assert (s + rest)[1..] == s[1..] + rest;
      assert [s[0]] + s[1..] == s;
    }
  }

  /**
   Every value reads back from its console text, with exactly the rest of the
   line left: a space or an equals sign inside a value never ends it.
   */
  lemma ValueReads(s: bytes, rest: bytes)
    requires Boundary(rest)
    ensures ReadValue(Value(s) + rest) == Some(Token(s, rest))
  {
    if NoSpecials(s) {
      ReadBareText(s, rest);
      assert s != [] ==> (s + rest)[0] == s[0];
    } else {
      ReadEscaped(s, rest);
      var inner := Escape(s) + ([QUOTE] + rest);
      Assoc([QUOTE], Escape(s), [QUOTE]);
      Assoc([QUOTE], Escape(s) + [QUOTE], rest);
      Assoc(Escape(s), [QUOTE], rest);
      Tail(QUOTE, inner);
    }
  }

  /** A value goes without quotation marks exactly when it has no space, `=`, `"`, backslash or control byte. */
  lemma BareExactly(s: bytes)
    ensures Value(s) == s <==> forall i :: 0 <= i < |s| ==> s[i] >= 0x20 && s[i] != 0x7f && s[i] !in Ascii(" =\"\\")
  {
    assert Ascii(" =\"\\") == [SPACE, EQUALS, QUOTE, BACKSLASH];
    hide Ascii;
    EscapeGrows(s);
  }

  lemma {:induction false} EscapeGrows(s: bytes)
    ensures |Escape(s)| >= |s|
  {
    if s == [] {
    } else {
      EscapeGrows(s[1..]);
    }
  }

  /** A space or an equals sign stands only inside quotation marks. */
  lemma SeparatorsAreQuoted(s: bytes)
    ensures SPACE in Value(s) || EQUALS in Value(s) ==> Value(s)[0] == QUOTE
  {
    if NoSpecials(s) {
      assert forall i :: 0 <= i < |s| ==> s[i] != SPACE && s[i] != EQUALS;
    }
  }

  // ----- reading messages back -----

  /** A message with its escapes undone; a backslash that begins none of them is refused. */
  function ReadMessage(t: bytes): (r: Option<bytes>)
    ensures r.Some? ==> BACKSLASH !in r.value && (EQUALS !in t ==> EQUALS !in r.value)
    decreases |t|
  {
    if t == [] then Some([])
    else
      match ReadUnit(t)
      case None => None
      case Some(c) =>
        match ReadMessage(c.rest)
        case None => None
        case Some(m) => Some(c.text + m)
  }

  function ReadUnit(t: bytes): (r: Option<Token>)
    requires t != []
    ensures r.Some? ==> |r.value.rest| < |t| && BACKSLASH !in r.value.text
    ensures r.Some? && EQUALS !in t ==> EQUALS !in r.value.text && EQUALS !in r.value.rest
  {
    if t[0] != BACKSLASH then Some(Token([t[0]], t[1..]))
    else if |t| < 2 then None
    else if t[1] == 0x6e then Some(Token([NL], t[2..]))
    else if t[1] == 0x72 then Some(Token([CR], t[2..]))
    else if t[1] == 0x74 then Some(Token([TAB], t[2..]))
    else if t[1] == 0x78 && |t| >= 4 && JsonText.HexValue(t[2]) >= 0 && JsonText.HexValue(t[3]) >= 0 &&
            Control(JsonText.HexValue(t[2]) * 16 + JsonText.HexValue(t[3])) then
      Some(Token([JsonText.HexValue(t[2]) * 16 + JsonText.HexValue(t[3])], t[4..]))
    else None
  }

  lemma ReadMessageByte(ch: byte, rest: bytes)
    requires ch != BACKSLASH
    ensures ReadUnit(MessageByte(ch) + rest) == Some(Token([ch], rest))
  {
    var e := MessageByte(ch);
    var t := e + rest;
    if |e| == 1 {
      Tail(ch, rest);
    } else if |e| == 2 {
      assert t[2..] == rest;
    } else {
      assert t[0] == BACKSLASH && t[1] == 0x78 && t[2] == HexDigit(ch / 16) && t[3] == HexDigit(ch % 16);
      assert t[4..] == rest;
      assert JsonText.HexValue(HexDigit(ch / 16)) == ch / 16;
      assert JsonText.HexValue(HexDigit(ch % 16)) == ch % 16;
    }
  }

  lemma {:induction false} MessageDecodes(s: bytes)
    requires BACKSLASH !in s
    ensures ReadMessage(Message(s)) == Some(s)
  {
    if s == [] {
    } else {
      hide ReadUnit, MessageByte;
      MessageDecodes(s[1..]);
      ReadMessageByte(s[0], Message(s[1..]));
      assert MessageByte(s[0]) + Message(s[1..]) != [] by { ByteIsSomething(s[0]); }
      assert [s[0]] + s[1..] == s;
    }
  }

  lemma ByteIsSomething(ch: byte)
    ensures MessageByte(ch) != []
  {
  }

  /** A message reads back exactly when it has no backslash: those are not escaped. */
  lemma {:induction false} MessageReads(s: bytes)
    ensures ReadMessage(Message(s)) == Some(s) <==> BACKSLASH !in s
  {
    if BACKSLASH !in s {
      MessageDecodes(s);
    }
  }

  /** A message stands as it is exactly when it is printable. */
  lemma {:induction false} MessageVerbatim(s: bytes)
    ensures |Message(s)| >= |s|
    ensures Message(s) == s <==> Printable(s)
  {
    if s == [] {
    } else {
      MessageVerbatim(s[1..]);
      assert s == [s[0]] + s[1..];
      if Control(s[0]) {
        assert |MessageByte(s[0])| >= 2;
      } else {
        assert MessageByte(s[0]) == [s[0]];
        assert Message(s) == [s[0]] + Message(s[1..]);
        Tail(s[0], Message(s[1..]));
        assert Printable(s) <==> Printable(s[1..]);
      }
    }
  }

  /** Different messages look different, if both are printable or neither has a backslash. */
  lemma {:induction false} MessagesDiffer(s: bytes, t: bytes)
    requires s != t && ((Printable(s) && Printable(t)) || (BACKSLASH !in s && BACKSLASH !in t))
    ensures Message(s) != Message(t)
  {
    if Printable(s) && Printable(t) {
      MessageVerbatim(s);
      MessageVerbatim(t);
    } else {
      MessageDecodes(s);
      MessageDecodes(t);
    }
  }

  lemma {:induction false} MessageHasNoEquals(s: bytes)
    requires EQUALS !in s
    ensures EQUALS !in Message(s)
  {
    if s == [] {
    } else {
      MessageHasNoEquals(s[1..]);
      assert EQUALS !in MessageByte(s[0]) by { ByteHasNoEquals(s[0]); }
    }
  }

  lemma ByteHasNoEquals(ch: byte)
    requires ch != EQUALS
    ensures EQUALS !in MessageByte(ch)
  {
  }

  predicate Printable(t: bytes) {
    forall i :: 0 <= i < |t| ==> !Control(t[i])
  }

  lemma HexPrintable(ch: byte)
    ensures Printable(HexPair(ch)) && Printable(HexEscape(ch)) && Printable(EscapeByte(ch))
  {
  }

  lemma {:induction false} EscapePrintable(s: bytes)
    ensures Printable(Escape(s)) && Printable(Message(s))
  {
    if s == [] {
    } else {
      HexPrintable(s[0]);
      EscapePrintable(s[1..]);
    }
  }

  /** No raw control byte or DEL leaves either encoder. */
  lemma {:induction false} OutputPrintable(s: bytes)
    ensures Printable(Value(s)) && Printable(Message(s))
  {
    EscapePrintable(s);
  }
}
