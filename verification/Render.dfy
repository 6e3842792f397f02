/**
 The appending loops of src/pslog.c: JSON and console strings by cursor and
 chunk, hexadecimal bytes and integers, each into a line buffer.
 */
module Render {
  import opened Bytes
  import opened LineBuffers
  import JsonString
  import ConsoleString
  import Utf8
  import Trust
  import Integers
  import Events

  /** The memory of a text without NUL. */
  function Memory(text: bytes): (mem: bytes)
    requires NulFree(text)
    ensures CString(mem) && Text(mem) == text
  {
    assert (text + [0])[..|text|] == text;
    text + [0]
  }

  // ----- text on its way out: done, a chunk to be copied as it stands, and the rest -----

  ghost predicate Parts(all: bytes, done: bytes, chunk: bytes, rest: bytes) {
    done + chunk + rest == all
  }

  /** What needs no escape joins the chunk. */
  lemma PartsExtend(all: bytes, done: bytes, chunk: bytes, front: bytes, rest: bytes, longer: bytes)
    requires Parts(all, done, chunk, front + rest) && longer == chunk + front
    ensures Parts(all, done, longer, rest)
  {
    Assoc(done + chunk, front, rest);
    Assoc(done, chunk, front);
  }

  /** An escape goes out after the chunk before it; a new chunk begins behind it. */
  lemma PartsEscape(all: bytes, done: bytes, chunk: bytes, front: bytes, rest: bytes)
    requires Parts(all, done, chunk, front + rest)
    ensures Parts(all, done + chunk + front, [], rest)
  {
    Assoc(done + chunk, front, rest);
    assert done + chunk + front + [] == done + chunk + front;
  }

  lemma PartsStart(all: bytes)
    ensures Parts(all, [], [], all)
  {
    assert [] + [] + all == all;
  }

  lemma PartsEnd(all: bytes, done: bytes, chunk: bytes)
    requires Parts(all, done, chunk, [])
    ensures done + chunk == all
  {
    assert done + chunk + [] == done + chunk;
  }

  lemma LongerChunk(text: bytes, chunk: nat, cursor: nat, w: nat)
    requires chunk <= cursor <= cursor + w <= |text|
    ensures text[chunk..cursor + w] == text[chunk..cursor] + text[cursor..cursor + w]
  {
  }

  // ----- JSON strings -----

  /** Everything before the cursor is out, but for the chunk that will be copied as it stands. */
  ghost predicate Escaping(text: bytes, chunk: nat, cursor: nat, done: bytes) {
    chunk <= cursor <= |text| &&
    Parts(JsonString.Escape(text), done, text[chunk..cursor], JsonString.Escape(text[cursor..]))
  }

  lemma EscapingStarts(text: bytes)
    ensures Escaping(text, 0, 0, [])
  {
    PartsStart(JsonString.Escape(text));
    hide Parts, JsonString.Escape;
    assert text[0..] == text && text[0..0] == [];
  }

  lemma EscapeStep(text: bytes, cursor: nat)
    requires cursor < |text|
    ensures var w := JsonString.FrontWidth(text[cursor..]);
            cursor + w <= |text| &&
            JsonString.Escape(text[cursor..]) ==
            JsonString.EscapeFront(text[cursor..]) + JsonString.Escape(text[cursor + w..])
  {
    hide JsonString.EscapeFront, JsonString.FrontWidth;
    var w := JsonString.FrontWidth(text[cursor..]);
    assert text[cursor..][w..] == text[cursor + w..];
  }

  /** A front that needs no escape joins the chunk. */
  lemma RawFront(text: bytes, chunk: nat, cursor: nat, done: bytes)
    requires Escaping(text, chunk, cursor, done) && cursor < |text|
    requires var w := JsonString.FrontWidth(text[cursor..]);
             cursor + w <= |text| && JsonString.EscapeFront(text[cursor..]) == text[cursor..cursor + w]
    ensures Escaping(text, chunk, cursor + JsonString.FrontWidth(text[cursor..]), done)
  {
    hide JsonString.EscapeFront, JsonString.FrontWidth, JsonString.Escape, Parts;
    EscapeStep(text, cursor);
    var w := JsonString.FrontWidth(text[cursor..]);
    LongerChunk(text, chunk, cursor, w);
    PartsExtend(JsonString.Escape(text), done, text[chunk..cursor], text[cursor..cursor + w],
                JsonString.Escape(text[cursor + w..]), text[chunk..cursor + w]);
  }

  /** An escape goes out after the chunk before it; a new chunk begins behind it. */
  lemma EscapedFront(text: bytes, chunk: nat, cursor: nat, done: bytes)
    requires Escaping(text, chunk, cursor, done) && cursor < |text|
    requires JsonString.FrontWidth(text[cursor..]) == 1
    ensures Escaping(text, cursor + 1, cursor + 1,
                     done + text[chunk..cursor] + JsonString.EscapeFront(text[cursor..]))
  {
    hide JsonString.EscapeFront, JsonString.Escape, Parts;
    EscapeStep(text, cursor);
    PartsEscape(JsonString.Escape(text), done, text[chunk..cursor], JsonString.EscapeFront(text[cursor..]),
                JsonString.Escape(text[cursor + 1..]));
    assert text[cursor + 1..cursor + 1] == [];
  }

  /** The chunk so far and then an escape. */
  method PutChunkAndEscape(b: LineBuffer, chunk: bytes, esc: bytes, ghost start: bytes, ghost text: bytes)
    requires b.Holds(start, text)
    modifies b.Repr
    ensures b.Holds(start, text + chunk + esc) && b.Kept()
  {
    if chunk != [] {
      b.Put(chunk, start, text);
    } else {
      assert text + chunk == text;
    }
    b.Put(esc, start, text + chunk);
  }

  lemma FrontCases(text: bytes, cursor: nat)
    requires cursor < |text|
    ensures var s := text[cursor..];
            var ch := text[cursor];
            var n := Utf8.SequenceLength(s);
            var w := JsonString.FrontWidth(s);
            cursor + w <= |text| &&
            (ch >= 0x80 && n > 0 ==> w == n && JsonString.EscapeFront(s) == text[cursor..cursor + n]) &&
            (ch >= 0x80 && n == 0 ==> w == 1 && JsonString.EscapeFront(s) == JsonString.UnicodeEscape(ch)) &&
            (ch < 0x80 ==> w == 1 && JsonString.EscapeFront(s) == JsonString.EscapeAscii(ch)) &&
            (ch < 0x80 && JsonString.EscapeKind(ch) == 0 ==> JsonString.EscapeFront(s) == text[cursor..cursor + 1])
  {
    hide Utf8.SequenceLength, JsonString.UnicodeEscape;
    var s, n := text[cursor..], Utf8.SequenceLength(text[cursor..]);
    assert s[0] == text[cursor];
    assert s[..n] == text[cursor..cursor + n];
    assert text[cursor..cursor + 1] == [text[cursor]];
  }

  /** One turn of the loop. */
  method EscapeOne(b: LineBuffer, text: bytes, chunk: nat, cursor: nat, ghost start: bytes, ghost done: bytes)
      returns (chunk': nat, cursor': nat, ghost done': bytes)
    requires cursor < |text| && Escaping(text, chunk, cursor, done) && b.Holds(start, done)
    modifies b.Repr
    ensures cursor < cursor' <= |text| && Escaping(text, chunk', cursor', done')
    ensures b.Holds(start, done') && b.Kept()
  {
    hide JsonString.EscapeFront, JsonString.Escape, JsonString.EscapeAscii, Utf8.SequenceLength, JsonString.UnicodeEscape;
    var ch := text[cursor];
    FrontCases(text, cursor);
    if ch >= 0x80 && Utf8.SequenceLength(text[cursor..]) > 0 {
      RawFront(text, chunk, cursor, done);
      return chunk, cursor + Utf8.SequenceLength(text[cursor..]), done;
    }
    if ch < 0x80 && JsonString.EscapeKind(ch) == 0 {
      RawFront(text, chunk, cursor, done);
      return chunk, cursor + 1, done;
    }
    var esc := if ch >= 0x80 then JsonString.UnicodeEscape(ch) else JsonString.EscapeAscii(ch);
    EscapedFront(text, chunk, cursor, done);
    PutChunkAndEscape(b, text[chunk..cursor], esc, start, done);
    return cursor + 1, cursor + 1, done + text[chunk..cursor] + esc;
  }

  /** `pslog_buffer_append_json_string_n` */
  method AppendJsonString(b: LineBuffer, text: bytes)
    requires b.Valid()
    modifies b.Repr
    ensures b.Appended(JsonString.Encode(text))
  {
    hide JsonString.Encode, JsonString.Escape, LineBuffer.Valid;
    ghost var start := b.line;
    b.AppendFast([QUOTE]);
    ghost var inner := b.line;
    assert inner + [] == inner;
    var cursor: nat, chunk: nat := 0, 0;
    ghost var done: bytes := [];
    EscapingStarts(text);
    while cursor < |text|
      invariant cursor <= |text| && Escaping(text, chunk, cursor, done)
      invariant b.Holds(inner, done) && b.Kept()
    {
      chunk, cursor, done := EscapeOne(b, text, chunk, cursor, inner, done);
    }
    PutChunkAndEscape(b, text[chunk..cursor], [QUOTE], inner, done);
    EscapingEnds(text, chunk, done, start);
  }

  lemma EscapingEnds(text: bytes, chunk: nat, done: bytes, start: bytes)
    requires Escaping(text, chunk, |text|, done)
    ensures start + [QUOTE] + (done + text[chunk..|text|] + [QUOTE]) == start + JsonString.Encode(text)
  {
    assert text[|text|..] == [];
    PartsEnd(JsonString.Escape(text), done, text[chunk..|text|]);
    var body := done + text[chunk..|text|];
    Assoc(start, [QUOTE], body + [QUOTE]);
    Assoc([QUOTE], body, [QUOTE]);
  }

  /** `PSLOG_BUFFER_APPEND_JSON_TRUSTED_STRING_N_FAST` */
  method AppendQuoted(b: LineBuffer, text: bytes)
    requires b.Valid()
    modifies b.Repr
    ensures b.Appended(JsonString.Quote(text))
  {
    hide LineBuffer.Valid;
    ghost var start := b.line;
    assert start + [] == start && [] + [QUOTE] == [QUOTE];
    b.Put([QUOTE], start, []);
    b.Put(text, start, [QUOTE]);
    b.Put([QUOTE], start, [QUOTE] + text);
  }

  /** `pslog_buffer_append_json_string_maybe_trusted` */
  method AppendMaybeTrusted(b: LineBuffer, text: bytes)
    requires b.Valid() && NulFree(text)
    modifies b.Repr
    ensures b.Appended(JsonString.MaybeTrusted(text))
  {
    hide LineBuffer.Valid, JsonString.Quote, JsonString.Encode, JsonString.Trusted, JsonString.AsciiTrusted;
    var mem := Memory(text);
    var trusted, len := Trust.IsAsciiTrusted(mem);
    if !trusted {
      trusted, len := Trust.IsTrusted(mem);
    }
    assert text[..len] == text;
    if trusted {
      AppendQuoted(b, text[..len]);
    } else {
      AppendJsonString(b, text);
    }
  }

  // ----- console strings -----

  function One(quoted: bool, ch: byte): bytes {
    if quoted then ConsoleString.EscapeByte(ch) else ConsoleString.MessageByte(ch)
  }

  /** A quoted value's inside, or a message. */
  function Every(quoted: bool, s: bytes): bytes {
    if quoted then ConsoleString.Escape(s) else ConsoleString.Message(s)
  }

  ghost predicate Writing(quoted: bool, text: bytes, chunk: nat, cursor: nat, done: bytes) {
    chunk <= cursor <= |text| && Parts(Every(quoted, text), done, text[chunk..cursor], Every(quoted, text[cursor..]))
  }

  lemma EveryStep(quoted: bool, text: bytes, cursor: nat)
    requires cursor < |text|
    ensures Every(quoted, text[cursor..]) == One(quoted, text[cursor]) + Every(quoted, text[cursor + 1..])
  {
    assert text[cursor..][1..] == text[cursor + 1..];
  }

  lemma RawByte(quoted: bool, text: bytes, chunk: nat, cursor: nat, done: bytes)
    requires Writing(quoted, text, chunk, cursor, done) && cursor < |text| && One(quoted, text[cursor]) == [text[cursor]]
    ensures Writing(quoted, text, chunk, cursor + 1, done)
  {
    hide Every, One, Parts;
    EveryStep(quoted, text, cursor);
    assert text[cursor..cursor + 1] == [text[cursor]];
    LongerChunk(text, chunk, cursor, 1);
    PartsExtend(Every(quoted, text), done, text[chunk..cursor], text[cursor..cursor + 1],
                Every(quoted, text[cursor + 1..]), text[chunk..cursor + 1]);
  }

  lemma EscapedByte(quoted: bool, text: bytes, chunk: nat, cursor: nat, done: bytes)
    requires Writing(quoted, text, chunk, cursor, done) && cursor < |text|
    ensures Writing(quoted, text, cursor + 1, cursor + 1, done + text[chunk..cursor] + One(quoted, text[cursor]))
  {
    hide Every, One, Parts;
    EveryStep(quoted, text, cursor);
    PartsEscape(Every(quoted, text), done, text[chunk..cursor], One(quoted, text[cursor]),
                Every(quoted, text[cursor + 1..]));
    assert text[cursor + 1..cursor + 1] == [];
  }

  /** The loop over the rest of a C string from `from` on, what is before it being out already. */
  method EscapeRest(b: LineBuffer, quoted: bool, mem: bytes, from: nat, ghost start: bytes, ghost out: bytes)
      returns (ghost done: bytes)
    requires CString(mem) && from <= |Text(mem)| && b.Holds(start, out)
    requires Writing(quoted, Text(mem), from, from, out)
    modifies b.Repr
    ensures done == Every(quoted, Text(mem)) && b.Holds(start, done) && b.Kept()
  {
    hide LineBuffer.Valid, Every, One;
    ghost var text := Text(mem);
    var cursor: nat, chunk: nat := from, from;
    done := out;
    while mem[cursor] != 0
      invariant chunk <= cursor <= |text| && Writing(quoted, text, chunk, cursor, done)
      invariant b.Holds(start, done) && b.Kept()
      decreases |mem| - cursor
    {
      var ch := mem[cursor];
      var esc := One(quoted, ch);
      if esc == [ch] {
        RawByte(quoted, text, chunk, cursor, done);
      } else {
        EscapedByte(quoted, text, chunk, cursor, done);
        PutChunkAndEscape(b, mem[chunk..cursor], esc, start, done);
        assert mem[chunk..cursor] == text[chunk..cursor];
        done := done + text[chunk..cursor] + esc;
        chunk := cursor + 1;
      }
      cursor := cursor + 1;
    }
    assert mem[chunk..cursor] == text[chunk..cursor];
    b.Put(mem[chunk..cursor], start, done);
    WritingEnds(quoted, text, chunk, done);
    done := done + text[chunk..cursor];
  }

  lemma WritingEnds(quoted: bool, text: bytes, chunk: nat, done: bytes)
    requires Writing(quoted, text, chunk, |text|, done)
    ensures done + text[chunk..|text|] == Every(quoted, text)
  {
    assert text[|text|..] == [];
    PartsEnd(Every(quoted, text), done, text[chunk..|text|]);
  }

  /** Text before the first special byte escapes to itself. */
  lemma {:induction false} PlainFront(text: bytes, n: nat)
    requires n <= |text| && ConsoleString.NoSpecials(text[..n])
    ensures Writing(true, text, n, n, text[..n])
  {
    if n == 0 {
      WritingStarts(true, text);
      assert text[..0] == [];
    } else {
      assert text[..n - 1] == text[..n][..n - 1];
      PlainFront(text, n - 1);
      assert text[..n][n - 1] == text[n - 1];
      PlainByteOut(text, n - 1);
    }
  }

  lemma WritingStarts(quoted: bool, text: bytes)
    ensures Writing(quoted, text, 0, 0, [])
  {
    PartsStart(Every(quoted, text));
    hide Parts, Every;
    assert text[0..] == text && text[0..0] == [];
  }

  lemma PlainByteOut(text: bytes, i: nat)
    requires i < |text| && Writing(true, text, i, i, text[..i]) && !ConsoleString.NeedsQuotes(text[i])
    ensures Writing(true, text, i + 1, i + 1, text[..i + 1])
  {
    assert One(true, text[i]) == [text[i]];
    hide Every, One, Parts;
    EscapedByte(true, text, i, i, text[..i]);
    assert text[..i] + text[i..i] + [text[i]] == text[..i + 1];
  }

  /** `pslog_buffer_append_console_string` */
  method AppendConsoleString(b: LineBuffer, text: bytes)
    requires b.Valid() && NulFree(text)
    modifies b.Repr
    ensures b.Appended(ConsoleString.Value(text))
  {
    hide LineBuffer.Valid, ConsoleString.Escape, Every, Writing;
    var mem := Memory(text);
    ghost var start := b.line;
    assert start + [] == start;
    var cursor: nat := 0;
    while mem[cursor] != 0 && !ConsoleString.NeedsQuotes(mem[cursor])
      invariant cursor <= |text| && ConsoleString.NoSpecials(text[..cursor])
      decreases |mem| - cursor
    {
      cursor := cursor + 1;
    }
    if mem[cursor] == 0 {
      assert text[..cursor] == text;
      b.AppendFast(mem[..cursor]);
      return;
    }
    assert mem[..cursor] == text[..cursor];
    b.AppendFast([QUOTE]);
    ghost var inner := b.line;
    assert inner + [] == inner && [] + text[..cursor] == text[..cursor];
    b.Put(mem[..cursor], inner, []);
    PlainFront(text, cursor);
    ghost var body := EscapeRest(b, true, mem, cursor, inner, text[..cursor]);
    b.Put([QUOTE], inner, body);
    QuotedValue(text, body, start);
  }

  lemma QuotedValue(text: bytes, body: bytes, start: bytes)
    requires !ConsoleString.NoSpecials(text) && body == Every(true, text)
    ensures start + [QUOTE] + (body + [QUOTE]) == start + ConsoleString.Value(text)
  {
    Assoc(start, [QUOTE], body + [QUOTE]);
    Assoc([QUOTE], body, [QUOTE]);
  }

  /** `pslog_buffer_append_console_message` */
  method AppendConsoleMessage(b: LineBuffer, text: bytes)
    requires b.Valid() && NulFree(text)
    modifies b.Repr
    ensures b.Appended(ConsoleString.Message(text))
  {
    hide LineBuffer.Valid;
    var mem := Memory(text);
    ghost var start := b.line;
    assert start + [] == start;
    WritingStarts(false, text);
    ghost var done := EscapeRest(b, false, mem, 0, start, []);
  }

  // ----- bytes and numbers -----

  /** `pslog_buffer_append_bytes_hex` */
  method AppendHex(b: LineBuffer, data: bytes)
    requires b.Valid()
    modifies b.Repr
    ensures b.Appended(Events.Hex(data))
  {
    hide LineBuffer.Valid, Events.Hex;
    ghost var start := b.line;
    assert start + [] == start;
    HexStarts(data);
    ghost var done: bytes := [];
    for i := 0 to |data|
      invariant b.Holds(start, done) && b.Kept() && done + Events.Hex(data[i..]) == Events.Hex(data)
    {
      HexStep(data, i, done);
      b.Put([HexDigit(data[i] / 16)], start, done);
      b.Put([HexDigit(data[i] % 16)], start, done + [HexDigit(data[i] / 16)]);
      done := done + [HexDigit(data[i] / 16)] + [HexDigit(data[i] % 16)];
    }
    HexEnds(data, done);
  }

  lemma {:induction false} HexStarts(data: bytes)
    ensures [] + Events.Hex(data[0..]) == Events.Hex(data)
  {
    assert data[0..] == data;
  }

  lemma HexStep(data: bytes, i: nat, done: bytes)
    requires i < |data|
    ensures done + [HexDigit(data[i] / 16)] + [HexDigit(data[i] % 16)] + Events.Hex(data[i + 1..]) ==
            done + Events.Hex(data[i..])
  {
    assert data[i..][1..] == data[i + 1..];
    assert HexPair(data[i]) == [HexDigit(data[i] / 16)] + [HexDigit(data[i] % 16)];
    Assoc(done, [HexDigit(data[i] / 16)], [HexDigit(data[i] % 16)]);
    Assoc(done, HexPair(data[i]), Events.Hex(data[i + 1..]));
  }

  lemma HexEnds(data: bytes, done: bytes)
    ensures done + Events.Hex(data[|data|..]) == done
  {
    assert data[|data|..] == [];
  }

  /** `pslog_buffer_append_signed` */
  method AppendSigned(b: LineBuffer, value: int)
    requires b.Valid() && Integers.I64_MIN <= value <= Integers.I64_MAX
    modifies b.Repr
    ensures b.Appended(Integers.SignedText(value))
  {
    var text := Integers.FormatSigned(value);
    b.AppendFast(text);
  }

  /** `pslog_buffer_append_unsigned` */
  method AppendUnsigned(b: LineBuffer, value: nat)
    requires b.Valid() && value <= Integers.U64_MAX
    modifies b.Repr
    ensures b.Appended(Integers.Decimal(value))
  {
    var text := Integers.FormatUnsigned(value);
    b.AppendFast(text);
  }
}
