/**
 The JSON string encoder and the trusted fast path beside it
 (src/pslog.c, `pslog_buffer_append_json_string_n` and `..._maybe_trusted`),
 as functions on byte strings.
 */
module JsonString {
  import opened Bytes
  import Utf8
  import JsonText

  /** The encoder's 256-entry table; bytes from 0x80 on are never looked up. */
  function EscapeKind(ch: byte): (k: int)
    ensures 0 <= k <= 6
  {
    if ch == QUOTE then 1
    else if ch == BACKSLASH then 2
    else if ch == CR then 3
    else if ch == NL then 4
    else if ch == TAB then 5
    else if ch < 0x20 || ch == BRACKET then 6
    else 0
  }

  /** `\u00` and two hexadecimal digits. */
  function UnicodeEscape(ch: byte): bytes {
    [BACKSLASH, 0x75, ZERO, ZERO] + HexPair(ch)
  }

  function EscapeAscii(ch: byte): bytes {
    var kind := EscapeKind(ch);
    if kind == 0 then [ch]
    else if kind == 1 || kind == 2 then [BACKSLASH, ch]
    else if kind == 3 then [BACKSLASH, 0x72]
    else if kind == 4 then [BACKSLASH, 0x6e]
    else if kind == 5 then [BACKSLASH, 0x74]
    else UnicodeEscape(ch)
  }

  /** How far the encoder's cursor moves over the front of `s`. */
  function FrontWidth(s: bytes): (n: nat)
    requires s != []
    ensures 1 <= n <= |s|
  {
    if s[0] >= 0x80 && Utf8.SequenceLength(s) > 0 then Utf8.SequenceLength(s) else 1
  }

  /** What the encoder puts out for that front. */
  function EscapeFront(s: bytes): bytes
    requires s != []
  {
    if s[0] >= 0x80 then
      if Utf8.SequenceLength(s) == 0 then UnicodeEscape(s[0]) else s[..Utf8.SequenceLength(s)]
    else EscapeAscii(s[0])
  }

  function Escape(s: bytes): bytes {
    if s == [] then [] else EscapeFront(s) + Escape(s[FrontWidth(s)..])
  }

  function Encode(s: bytes): bytes {
    [QUOTE] + Escape(s) + [QUOTE]
  }

  // ----- the escaped form decodes to the code points -----

  lemma HexPairReads(ch: byte)
    ensures JsonText.Unit([ZERO, ZERO] + HexPair(ch)) == ch
  {
    assert JsonText.HexValue(HexDigit(ch / 16)) == ch / 16;
    assert JsonText.HexValue(HexDigit(ch % 16)) == ch % 16;
  }

  lemma UnicodeEscapeReads(ch: byte, rest: bytes)
    ensures JsonText.Char(UnicodeEscape(ch) + rest) == Some(JsonText.Parsed(ch, rest))
  {
    HexPairReads(ch);
    var u := [ZERO, ZERO] + HexPair(ch);
    var t := u + rest;
    assert UnicodeEscape(ch) + rest == [BACKSLASH, 0x75] + t;
    assert t[0] == u[0] && t[1] == u[1] && t[2] == u[2] && t[3] == u[3];
    assert JsonText.Unit(t) == ch;
    assert t[4..] == rest;
    assert ([BACKSLASH, 0x75] + t)[2..] == t;
  }

  lemma EscapeAsciiReads(ch: byte, rest: bytes)
    requires ch < 0x80
    ensures JsonText.Char(EscapeAscii(ch) + rest) == Some(JsonText.Parsed(ch, rest))
  {
    var kind := EscapeKind(ch);
    if kind == 6 {
      UnicodeEscapeReads(ch, rest);
    } else if kind == 0 {
      Tail(ch, rest);
    } else {
      assert (EscapeAscii(ch) + rest)[2..] == rest;
    }
  }

  lemma RawCharReads(s: bytes, rest: bytes)
    requires Utf8.SequenceLength(s) > 0 && s[0] >= 0x20 && s[0] != QUOTE && s[0] != BACKSLASH
    ensures var n := Utf8.SequenceLength(s);
            JsonText.Char(s[..n] + rest) == Some(JsonText.Parsed(Utf8.FrontScalar(s), rest))
  {
    var n := Utf8.SequenceLength(s);
    Utf8.RecogniserLocal(s, rest);
    hide Utf8.SequenceLength, Utf8.FrontScalar;
    var t := s[..n] + rest;
    Suffix(s[..n], rest);
    assert t[0] == s[0];
  }

  lemma {:induction false} EscapeFrontReads(s: bytes, rest: bytes)
    requires s != []
    ensures JsonText.Char(EscapeFront(s) + rest) == Some(JsonText.Parsed(Utf8.CodePoints(s)[0], rest))
    ensures Utf8.CodePoints(s) == [Utf8.CodePoints(s)[0]] + Utf8.CodePoints(s[FrontWidth(s)..])
  {
    if s[0] < 0x80 {
      EscapeAsciiReads(s[0], rest);
    } else if Utf8.SequenceLength(s) == 0 {
      UnicodeEscapeReads(s[0], rest);
    } else {
      RawCharReads(s, rest);
    }
  }

  lemma {:induction false} ConsBody(front: bytes, c: int, rest: bytes)
    requires front != [] && front[0] != QUOTE
    requires JsonText.Char(front + rest) == Some(JsonText.Parsed(c, rest))
    ensures JsonText.Body(front + rest) ==
            match JsonText.Body(rest)
            case None => None
            case Some(b) => Some(JsonText.Parsed([c] + b.value, b.rest))
  {
  }

  lemma EscapeFrontShape(s: bytes)
    requires s != []
    ensures EscapeFront(s) != [] && EscapeFront(s)[0] != QUOTE
  {
  }

  lemma {:induction false} EscapeReads(s: bytes, rest: bytes)
    ensures JsonText.Body(Escape(s) + ([QUOTE] + rest)) == Some(JsonText.Parsed(Utf8.CodePoints(s), rest))
    decreases |s|
  {
    if s == [] {
      assert Escape(s) + ([QUOTE] + rest) == [QUOTE] + rest;
      Tail(QUOTE, rest);
    } else {
      hide JsonText.Char, EscapeFront, Utf8.SequenceLength, JsonText.Body;
      var tail := s[FrontWidth(s)..];
      var after := Escape(tail) + ([QUOTE] + rest);
      EscapeReads(tail, rest);
      EscapeFrontReads(s, after);
      EscapeFrontShape(s);
      ConsBody(EscapeFront(s), Utf8.CodePoints(s)[0], after);
      Assoc(EscapeFront(s), Escape(tail), [QUOTE] + rest);
    }
  }

  /**
   For every byte string the encoder yields one JSON string literal, and a
   reader of JSON gets back the code points of the input, every byte outside
   well-formed UTF-8 standing for its own number.
   */
  lemma {:induction false} EncodeReads(s: bytes)
    ensures JsonText.ReadsAsKey(Encode(s), Utf8.CodePoints(s))
    ensures JsonText.ReadsAs(Encode(s), JsonText.String(Utf8.CodePoints(s)))
  {
    forall rest
      ensures JsonText.StringText(Encode(s) + rest) == Some(JsonText.Parsed(Utf8.CodePoints(s), rest))
      ensures JsonText.Value(Encode(s) + rest) == Some(JsonText.Parsed(JsonText.String(Utf8.CodePoints(s)), rest))
    {
      QuotedReads(Escape(s), rest);
      EscapeReads(s, rest);
    }
  }

  lemma {:induction false} QuotedReads(body: bytes, rest: bytes)
    ensures var t := [QUOTE] + body + [QUOTE] + rest;
            JsonText.StringText(t) == JsonText.Body(body + ([QUOTE] + rest)) &&
            JsonText.Value(t) == match JsonText.StringText(t)
                                 case None => None
                                 case Some(b) => Some(JsonText.Parsed(JsonText.String(b.value), b.rest))
  {
    hide JsonText.Body;
    Assoc([QUOTE], body, [QUOTE]);
    Assoc([QUOTE], body + [QUOTE], rest);
    Assoc(body, [QUOTE], rest);
    Tail(QUOTE, body + ([QUOTE] + rest));
  }

  /** The literal is itself well-formed UTF-8, whatever the input was. */
  lemma {:induction false} EscapeIsUtf8(s: bytes)
    ensures Utf8.Valid(Escape(s))
    decreases |s|
  {
    if s == [] {
    } else {
      var front, tail := EscapeFront(s), s[FrontWidth(s)..];
      assert Utf8.Valid(front) by { FrontIsUtf8(s); }
      hide Utf8.SequenceLength, EscapeFront;
      EscapeIsUtf8(tail);
      Utf8.ValidConcat(front, Escape(tail));
    }
  }

  lemma FrontIsUtf8(s: bytes)
    requires s != []
    ensures Utf8.Valid(EscapeFront(s))
  {
    if s[0] >= 0x80 && Utf8.SequenceLength(s) > 0 {
      var n := Utf8.SequenceLength(s);
      Utf8.RecogniserLocal(s, []);
      hide Utf8.SequenceLength;
      assert s[..n] + [] == s[..n];
      assert s[..n][n..] == [];
    } else {
      Utf8.AsciiValid(EscapeFront(s));
    }
  }

  lemma EncodeIsUtf8(s: bytes)
    ensures Utf8.Valid(Encode(s))
  {
    hide Escape;
    EscapeIsUtf8(s);
    Utf8.AsciiValid([QUOTE]);
    Utf8.ValidConcat([QUOTE], Escape(s));
    Utf8.ValidConcat([QUOTE] + Escape(s), [QUOTE]);
  }

  /** No raw control byte (so no raw newline and no raw escape byte) leaves the encoder. */
  lemma {:induction false} EscapeHasNoControls(s: bytes)
    ensures forall i :: 0 <= i < |Escape(s)| ==> Escape(s)[i] >= 0x20
    decreases |s|
  {
    if s == [] {
    } else {
      var front, tail := EscapeFront(s), s[FrontWidth(s)..];
      assert forall i :: 0 <= i < |front| ==> front[i] >= 0x20 by { FrontHasNoControls(s); }
      hide EscapeFront;
      EscapeHasNoControls(tail);
      assert Escape(s) == front + Escape(tail);
    }
  }

  lemma FrontHasNoControls(s: bytes)
    requires s != []
    ensures forall i :: 0 <= i < |EscapeFront(s)| ==> EscapeFront(s)[i] >= 0x20
  {
    if s[0] >= 0x80 && Utf8.SequenceLength(s) > 0 {
      assert forall i :: 1 <= i < Utf8.SequenceLength(s) ==> Utf8.Continuation(s[i]);
    }
  }

  // ----- the trusted form -----

  predicate PlainByte(b: byte) {
    b >= 0x20 && b != DEL && b != QUOTE && b != BACKSLASH
  }

  predicate Plain(s: bytes) {
    forall i :: 0 <= i < |s| ==> PlainByte(s[i])
  }

  /** Text that may be emitted between quotation marks as it stands. */
  predicate Trusted(s: bytes) {
    Utf8.Valid(s) && Plain(s)
  }

  predicate AsciiTrusted(s: bytes) {
    forall i :: 0 <= i < |s| ==> s[i] < 0x80 && PlainByte(s[i])
  }

  function Quote(s: bytes): bytes {
    [QUOTE] + s + [QUOTE]
  }

  /** `pslog_buffer_append_json_string_maybe_trusted` */
  function MaybeTrusted(s: bytes): bytes {
    if AsciiTrusted(s) || Trusted(s) then Quote(s) else Encode(s)
  }

  lemma AsciiTrustedIsTrusted(s: bytes)
    requires AsciiTrusted(s)
    ensures Trusted(s)
  {
    Utf8.AsciiValid(s);
  }

  lemma FrontOfPlain(s: bytes)
    requires Plain(s) && s != []
    ensures s[0] != QUOTE && s[0] >= 0x20 && s[0] != BACKSLASH
    ensures Plain(s[1..])
    ensures Plain(s[Utf8.SequenceLength(s)..])
  {
  }

  lemma NoSequenceBeforeQuote(s: bytes, rest: bytes)
    requires Plain(s) && s != [] && Utf8.SequenceLength(s) == 0
    ensures Utf8.SequenceLength(s + ([QUOTE] + rest)) == 0
  {
    var t := s + ([QUOTE] + rest);
    assert t[0] == s[0] && t[|s|] == QUOTE;
    assert forall i :: 0 <= i < |s| ==> t[i] == s[i];
  }

  /**
   Raw text without control bytes, quotation marks and backslashes reads back
   when it is well-formed UTF-8, as its code points, and not at all otherwise.
   */
  lemma {:induction false} RawReads(s: bytes, rest: bytes)
    requires Plain(s)
    ensures JsonText.Body(s + ([QUOTE] + rest)) ==
            if Utf8.Valid(s) then Some(JsonText.Parsed(Utf8.CodePoints(s), rest)) else None
    decreases |s|
  {
    if s == [] {
      assert s + ([QUOTE] + rest) == [QUOTE] + rest;
      Tail(QUOTE, rest);
    } else {
      FrontOfPlain(s);
      var t := s + ([QUOTE] + rest);
      assert t[0] == s[0];
      var n := Utf8.SequenceLength(s);
      if n == 0 {
        NoSequenceBeforeQuote(s, rest);
        assert JsonText.Char(t) == None;
      } else {
        hide JsonText.Char, Utf8.SequenceLength, JsonText.Body;
        var after := s[n..] + ([QUOTE] + rest);
        RawReads(s[n..], rest);
        RawCharReads(s, after);
        ConsBody(s[..n], Utf8.FrontScalar(s), after);
        Halves(s, n);
        Assoc(s[..n], s[n..], [QUOTE] + rest);
      }
    }
  }

  lemma {:induction false} QuoteReads(s: bytes)
    requires Trusted(s)
    ensures JsonText.ReadsAsKey(Quote(s), Utf8.CodePoints(s))
    ensures JsonText.ReadsAs(Quote(s), JsonText.String(Utf8.CodePoints(s)))
  {
    forall rest
      ensures JsonText.StringText(Quote(s) + rest) == Some(JsonText.Parsed(Utf8.CodePoints(s), rest))
      ensures JsonText.Value(Quote(s) + rest) == Some(JsonText.Parsed(JsonText.String(Utf8.CodePoints(s)), rest))
    {
      QuotedReads(s, rest);
      RawReads(s, rest);
    }
  }

  /** The fast path and the escaping path read back as the same string. */
  lemma {:induction false} MaybeTrustedReads(s: bytes)
    ensures JsonText.ReadsAsKey(MaybeTrusted(s), Utf8.CodePoints(s))
    ensures JsonText.ReadsAs(MaybeTrusted(s), JsonText.String(Utf8.CodePoints(s)))
  {
    if AsciiTrusted(s) || Trusted(s) {
      if AsciiTrusted(s) {
        AsciiTrustedIsTrusted(s);
      }
      QuoteReads(s);
    } else {
      EncodeReads(s);
    }
  }

  lemma TrustedTail(s: bytes)
    requires Trusted(s) && s != []
    ensures FrontWidth(s) == Utf8.SequenceLength(s) && Trusted(s[FrontWidth(s)..])
    ensures s[0] != BRACKET ==> EscapeFront(s) == s[..FrontWidth(s)]
    ensures s[0] == BRACKET ==> FrontWidth(s) == 1 && |EscapeFront(s)| == 6
    ensures forall i :: 0 < i < FrontWidth(s) ==> s[i] != BRACKET
  {
    assert s[0] < 0x80 ==> s[..1] == [s[0]];
  }

  lemma {:induction false} TrustedEscape(s: bytes)
    requires Trusted(s)
    ensures BRACKET !in s ==> Escape(s) == s
    ensures |Escape(s)| >= |s| && (BRACKET in s ==> |Escape(s)| > |s|)
    decreases |s|
  {
    if s == [] {
    } else {
      TrustedTail(s);
      hide EscapeFront, Utf8.SequenceLength, FrontWidth, Trusted;
      var n := FrontWidth(s);
      Halves(s, n);
      TrustedEscape(s[n..]);
      if BRACKET in s && s[0] != BRACKET {
        var k :| 0 <= k < |s| && s[k] == BRACKET;
        assert k >= n && s[n..][k - n] == BRACKET;
      }
    }
  }

  /** On trusted text the two paths give the same bytes exactly when it holds no `[`. */
  lemma PathsAgree(s: bytes)
    requires Trusted(s)
    ensures Quote(s) == Encode(s) <==> BRACKET !in s
  {
    TrustedEscape(s);
    if Quote(s) == Encode(s) {
      assert |Quote(s)| == |s| + 2 && |Encode(s)| == |Escape(s)| + 2;
    }
  }

  // ----- the encoder in its own letters -----

  /** How each ASCII byte comes out: five short escapes, `\u00XX`, or itself. */
  lemma EscapesAre(ch: byte)
    requires ch < 0x80
    ensures EscapeAscii(ch) ==
            if ch == 0x0a then Ascii("\\n") else if ch == 0x0d then Ascii("\\r") else if ch == 0x09 then Ascii("\\t")
            else if ch in Ascii("\"\\") then Ascii("\\") + [ch]
            else if ch < 0x20 || ch in Ascii("[") then Ascii("\\u00") + HexPair(ch)
            else [ch]
  {
    assert Ascii("\\n") == [BACKSLASH, 0x6e] && Ascii("\\r") == [BACKSLASH, 0x72] && Ascii("\\t") == [BACKSLASH, 0x74];
    assert Ascii("\"\\") == [QUOTE, BACKSLASH] && Ascii("\\") == [BACKSLASH] && Ascii("[") == [BRACKET];
    assert Ascii("\\u00") == [BACKSLASH, 0x75, ZERO, ZERO];
  }

  /** A byte is plain exactly when a JSON string may hold it raw, DEL aside; longer characters always may. */
  lemma PlainByteStands(b: byte)
    ensures PlainByte(b) <==> b >= 0x80 || (b != DEL && JsonText.Char([b]) == Some(JsonText.Parsed(b, [])))
  {
    assert [b][1..] == [];
  }

  /** The ASCII scan accepts exactly the ASCII part of what the UTF-8 scan accepts. */
  lemma AsciiTrustedIff(s: bytes)
    ensures AsciiTrusted(s) <==> Trusted(s) && forall i :: 0 <= i < |s| ==> s[i] < 0x80
  {
    if AsciiTrusted(s) {
      AsciiTrustedIsTrusted(s);
    }
  }
}
