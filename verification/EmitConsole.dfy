/**
 The console emitters as they run (src/pslog_emit_console.c): the output mutex
 first, fields through the prefix cache, the precomputed prefix, whole lines.
 */
module EmitConsole {
  import opened Bytes
  import opened Outputs
  import opened LineBuffers
  import opened Events
  import opened ConsoleLine
  import opened Render
  import opened Emission
  import PrefixCaches
  import ConsoleString
  import Trust
  import JsonText
  import Integers

  /** A cache apart from a buffer: appending leaves the one alone, resolving the other. */
  ghost predicate Apart(b: LineBuffer, cache: PrefixCaches.Cache)
    reads b, cache
  {
    cache !in b.Repr && cache.entries !in b.Repr
  }

  /** A field, the address of its key and the settings it is rendered with. */
  datatype Placed = Placed(field: Field, address: bv64)

  function FieldsOf(ps: seq<Placed>): (fs: seq<Field>)
    ensures |fs| == |ps| && forall i :: 0 <= i < |ps| ==> fs[i] == ps[i].field
  {
    seq(|ps|, i requires 0 <= i < |ps| => ps[i].field)
  }

  method AppendDouble(b: LineBuffer, sh: Shared, d: Real)
    requires b.Valid()
    modifies b.Repr
    ensures b.Appended(DoubleText(sh, d))
  {
    b.AppendFast(DoubleText(sh, d));
  }

  /** A string value: simple text as it stands, other text through the quoting loop. */
  method AppendSimpleOr(b: LineBuffer, text: bytes, simple: bool)
    requires b.Valid() && NulFree(text)
    modifies b.Repr
    ensures b.Appended(if simple then text else ConsoleString.Value(text))
  {
    if simple {
      b.AppendFast(text);
    } else {
      AppendConsoleString(b, text);
    }
  }

  /** `PSLOG_APPEND_CONSOLE_VALUE_RAW_FAST` */
  method AppendDatum(b: LineBuffer, sh: Shared, v: Datum)
    requires b.Valid() && Representable(Field([], true, v)) && ErrnoTexts(sh.platform)
    modifies b.Repr
    ensures b.Appended(ConsoleLine.DatumText(sh, v))
  {
    hide LineBuffer.Valid, ConsoleString.Value, Integers.SignedText, Integers.Decimal, Hex;
    match v
    case Null => b.AppendFast(JsonText.NULL_TEXT);
    case Str(text, _, simple) => AppendSimpleOr(b, text, simple);
    case Signed(i) => AppendSigned(b, i);
    case Unsigned(u) => AppendUnsigned(b, u);
    case Double(d) => AppendDouble(b, sh, d);
    case Bool(flag) => b.AppendFast(if flag then JsonText.TRUE_TEXT else JsonText.FALSE_TEXT);
    case Pointer(a) => b.AppendFast(sh.platform.pointer(a));
    case Blob(data) => AppendBlob(b, data);
    case Time(t) => b.AppendFast(sh.platform.time(t));
    case Duration(s) => b.AppendFast(sh.platform.duration(s));
    case Errno(code) =>
      assert NulFree(sh.platform.errno(code));
      AppendErrno(b, sh.platform.errno(code));
  }

  method AppendErrno(b: LineBuffer, text: bytes)
    requires b.Valid() && NulFree(text)
    modifies b.Repr
    ensures b.Appended(ConsoleString.Value(text))
  {
    var simple, _ := Trust.IsConsoleSimple(Memory(text));
    if simple {
      ConsoleString.SimpleIsValue(text);
    }
    hide LineBuffer.Valid, ConsoleString.Value;
    AppendSimpleOr(b, text, simple);
  }

  /** A key, its equals sign, and the colours before the value. */
  method AppendKeyPart(b: LineBuffer, sh: Shared, key: bytes, colour: bytes)
    requires b.Valid()
    modifies b.Repr
    ensures b.Appended(key + [EQUALS] + (Paint(sh, sh.palette.reset) + Paint(sh, colour)))
  {
    hide LineBuffer.Valid, Paint;
    ghost var start := b.line;
    ghost var r, c := Paint(sh, sh.palette.reset), Paint(sh, colour);
    b.AppendFast(key);
    b.AppendFast([EQUALS]);
    AppendPaint(b, sh, sh.palette.reset);
    AppendPaint(b, sh, colour);
    Assoc(start, key, [EQUALS]);
    Assoc(start + (key + [EQUALS]), r, c);
    Assoc(start, key + [EQUALS], r + c);
  }

  /** The prefix of a field without the cache. */
  method AppendFallback(b: LineBuffer, sh: Shared, key: bytes, colour: bytes)
    requires b.Valid()
    modifies b.Repr
    ensures b.Appended(FallbackText(sh, key, colour))
  {
    hide LineBuffer.Valid, Paint;
    ghost var start := b.line;
    ghost var r, k, c := Paint(sh, sh.palette.reset), Paint(sh, sh.palette.key), Paint(sh, colour);
    b.AppendFast([SPACE]);
    AppendPaint(b, sh, sh.palette.reset);
    AppendPaint(b, sh, sh.palette.key);
    AppendKeyPart(b, sh, key, colour);
    Lead(start, [SPACE], r, k, key + [EQUALS], r + c);
  }

  lemma Lead(start: bytes, x: bytes, y: bytes, z: bytes, key: bytes, colours: bytes)
    ensures start + x + y + z + (key + colours) == start + (x + y + z + key + colours)
  {
    Assoc(start, x, y);
    Assoc(start, x + y, z);
    Assoc(start, x + y + z, key + colours);
    Assoc(x + y + z, key, colours);
  }

  /** `pslog_append_console_field_cached` */
  method AppendField(b: LineBuffer, cache: PrefixCaches.Cache, p: Placed)
    requires b.Valid() && cache.Valid() && Apart(b, cache)
    requires Representable(p.field) && ErrnoTexts(cache.shared.platform)
    modifies b.Repr, cache.entries
    ensures b.Appended(FieldText(cache.shared, p.field)) && cache.Valid() && Apart(b, cache)
  {
    hide LineBuffer.Valid, ConsoleLine.DatumText, PrefixText, FallbackText, PrefixCaches.Rendering, ErrnoTexts, DatumColour;
    var sh, f := cache.shared, p.field;
    ghost var start := b.line;
    assert start + [] == start;
    if f.key == [] {
      return;
    }
    PrefixCaches.CachedField(sh, f);
    var prefix := cache.Resolve(p.address, f.key, TypeOf(f.value));
    if prefix.Some? {
      b.AppendFast(prefix.value);
      Assoc(start, prefix.value, ConsoleLine.DatumText(sh, f.value));
    } else {
      AppendFallback(b, sh, f.key, DatumColour(sh, f.value));
      Assoc(start, FallbackText(sh, f.key, DatumColour(sh, f.value)), ConsoleLine.DatumText(sh, f.value));
    }
    AppendDatum(b, sh, f.value);
  }

  lemma {:induction false} SetStep(sh: Shared, fs: seq<Field>, i: nat, done: bytes)
    requires i < |fs|
    ensures done + FieldText(sh, fs[i]) + Prefix(sh, fs[i + 1..]) == done + Prefix(sh, fs[i..])
  {
    hide FieldText;
    assert fs[i..][1..] == fs[i + 1..];
    Assoc(done, FieldText(sh, fs[i]), Prefix(sh, fs[i + 1..]));
  }

  lemma {:induction false} SetEnds(sh: Shared, fs: seq<Field>, done: bytes)
    ensures done + Prefix(sh, fs[|fs|..]) == done
    ensures [] + Prefix(sh, fs[0..]) == Prefix(sh, fs)
  {
    assert fs[|fs|..] == [] && fs[0..] == fs;
  }

  predicate AllPlaced(ps: seq<Placed>) {
    forall i :: 0 <= i < |ps| ==> Representable(ps[i].field)
  }

  /** `pslog_append_console_field_prefix`, which field sets use as well */
  method AppendPrefix(b: LineBuffer, cache: PrefixCaches.Cache, ps: seq<Placed>)
    requires b.Valid() && cache.Valid() && Apart(b, cache) && AllPlaced(ps) && ErrnoTexts(cache.shared.platform)
    modifies b.Repr, cache.entries
    ensures b.Appended(Prefix(cache.shared, FieldsOf(ps))) && cache.Valid() && Apart(b, cache)
  {
    hide LineBuffer.Valid, Prefix, FieldText, Representable, ErrnoTexts;
    var sh := cache.shared;
    ghost var fs := FieldsOf(ps);
    ghost var start := b.line;
    ghost var done: bytes := [];
    assert start + [] == start;
    SetEnds(sh, fs, done);
    for i := 0 to |ps|
      invariant b.Holds(start, done) && b.Kept() && cache.Valid() && Apart(b, cache)
      invariant done + Prefix(sh, fs[i..]) == Prefix(sh, fs)
    {
      SetStep(sh, fs, i, done);
      AppendField(b, cache, ps[i]);
      Assoc(start, done, FieldText(sh, fs[i]));
      done := done + FieldText(sh, fs[i]);
    }
    SetEnds(sh, fs, done);
  }

  /** `pslog_clone_with_fields`: the copies live at addresses of their own. */
  method Derive(log: Logger, fs: seq<Field>, cache: PrefixCaches.Cache, addresses: seq<bv64>, capacity: nat)
      returns (child: Logger)
    requires !log.shared.json && cache.Valid() && cache.shared == log.shared && |addresses| == |log.fields + fs|
    requires AllRepresentable(log.fields) && AllRepresentable(fs) && ErrnoTexts(log.shared.platform)
    modifies cache.entries
    ensures child == With(log, fs) && cache.Valid()
  {
    hide Representable, ErrnoTexts;
    var all := log.fields + fs;
    var ps := seq(|all|, i requires 0 <= i < |all| => Placed(all[i], addresses[i]));
    assert FieldsOf(ps) == all;
    var b := new LineBuffer(null, capacity, true);
    AppendPrefix(b, cache, ps);
    assert [] + Prefix(log.shared, all) == Prefix(log.shared, all);
    var prefix := b.data[..b.len];
    assert Concat([]) + prefix == prefix;
    child := log.(fields := all, prefix := prefix);
  }

  // ----- whole lines -----

  method AppendHead(b: LineBuffer, sh: Shared, e: Event)
    requires b.Valid() && NulFree(e.msg)
    modifies b.Repr
    ensures b.Appended(Head(sh, e))
  {
    hide LineBuffer.Valid, Paint, LevelFragment, ConsoleString.Message;
    ghost var start := b.line;
    ghost var stamp: bytes := if sh.timestamps then Paint(sh, sh.palette.timestamp) + e.stamp + [SPACE] else [];
    assert start + [] == start;
    if sh.timestamps {
      AppendPaint(b, sh, sh.palette.timestamp);
      AppendStamp(b, e.stamp);
      b.AppendFast([SPACE]);
      Assoc(start, Paint(sh, sh.palette.timestamp), e.stamp);
      Assoc(start, Paint(sh, sh.palette.timestamp) + e.stamp, [SPACE]);
    }
    ghost var level := LevelFragment(sh, Slot(e.level));
    b.AppendFast(LevelFragment(sh, Slot(e.level)));
    Assoc(start, stamp, level);
    AppendMessagePart(b, sh, e.msg);
    Assoc(start, stamp + level,
          if e.msg == [] then [] else [SPACE] + Paint(sh, sh.palette.message) + ConsoleString.Message(e.msg));
  }

  /** A message after its space and colour; nothing for an empty one. */
  method AppendMessagePart(b: LineBuffer, sh: Shared, msg: bytes)
    requires b.Valid() && NulFree(msg)
    modifies b.Repr
    ensures b.Appended(if msg == [] then [] else [SPACE] + Paint(sh, sh.palette.message) + ConsoleString.Message(msg))
  {
    hide LineBuffer.Valid, Paint, ConsoleString.Message;
    ghost var start := b.line;
    assert start + [] == start;
    if msg == [] {
      return;
    }
    b.AppendFast([SPACE]);
    AppendPaint(b, sh, sh.palette.message);
    AppendConsoleMessage(b, msg);
    Assoc(start, [SPACE], Paint(sh, sh.palette.message));
    Assoc(start, [SPACE] + Paint(sh, sh.palette.message), ConsoleString.Message(msg));
  }

  lemma LevelIsRepresentable(l: Level)
    ensures Representable(LevelField(l))
  {
  }

  /** The level field has the key `loglevel` in static memory. */
  method AppendFoot(b: LineBuffer, log: Logger, cache: PrefixCaches.Cache, address: bv64)
    requires b.Valid() && cache.Valid() && Apart(b, cache) && cache.shared == log.shared
    requires ErrnoTexts(log.shared.platform)
    modifies b.Repr, cache.entries
    ensures b.Appended(Foot(log)) && cache.Valid() && Apart(b, cache) && b.len > 0
  {
    hide LineBuffer.Valid, Paint, FieldText, LevelField, Representable, ErrnoTexts;
    ghost var start := b.line;
    assert start + [] == start;
    ghost var sh := log.shared;
    ghost var level: bytes := if log.includeLevel then FieldText(sh, LevelField(log.minLevel)) else [];
    if log.includeLevel {
      LevelIsRepresentable(log.minLevel);
      AppendField(b, cache, Placed(LevelField(log.minLevel), address));
    }
    AppendPaint(b, log.shared, log.shared.palette.reset);
    b.AppendFast([NL]);
    Assoc(start, level, Paint(sh, sh.palette.reset));
    Assoc(start, level + Paint(sh, sh.palette.reset), [NL]);
  }

  method AppendStatics(b: LineBuffer, log: Logger, cache: PrefixCaches.Cache, statics: seq<Placed>)
    requires b.Valid() && cache.Valid() && Apart(b, cache) && cache.shared == log.shared
    requires AllPlaced(statics) && FieldsOf(statics) == log.fields && ErrnoTexts(log.shared.platform)
    modifies b.Repr, cache.entries
    ensures b.Appended(Statics(log)) && cache.Valid() && Apart(b, cache)
  {
    hide LineBuffer.Valid, Prefix, ErrnoTexts;
    if log.prefix != [] {
      b.AppendFast(log.prefix);
    } else {
      AppendPrefix(b, cache, statics);
    }
  }

  /** The pieces of a line; the cache they share is guarded by the output mutex. */
  method AppendLine(b: LineBuffer, log: Logger, e: Event, cache: PrefixCaches.Cache,
                    statics: seq<Placed>, fields: seq<Placed>, address: bv64)
    requires b.outputLocked
    requires b.Valid() && cache.Valid() && Apart(b, cache) && cache.shared == log.shared && NulFree(e.msg)
    requires AllPlaced(statics) && FieldsOf(statics) == log.fields
    requires AllPlaced(fields) && FieldsOf(fields) == e.fields
    requires ErrnoTexts(log.shared.platform)
    modifies b.Repr, cache.entries
    ensures b.Appended(Line(log, e)) && cache.Valid() && Apart(b, cache) && b.len > 0
  {
    hide LineBuffer.Valid, Head, Foot, Statics, Prefix, ErrnoTexts, AllPlaced;
    ghost var start := b.line;
    AppendHead(b, log.shared, e);
    AppendStatics(b, log, cache, statics);
    AppendPrefix(b, cache, fields);
    AppendFoot(b, log, cache, address);
    Middle(start, Head(log.shared, e), Statics(log), Prefix(log.shared, e.fields), Foot(log));
  }

  /**
   `pslog_emit_console`: it holds the output mutex from before its first byte,
   and delivers the line as the JSON emitter does.
   */
  method Emit(log: Logger, e: Event, channel: Channel, wanted: nat, heapOk: bool, cache: PrefixCaches.Cache,
              statics: seq<Placed>, fields: seq<Placed>, address: bv64)
    requires channel.Valid() && !channel.locked
    requires cache.Valid() && cache.shared == log.shared && NulFree(e.msg)
    requires AllPlaced(statics) && FieldsOf(statics) == log.fields
    requires AllPlaced(fields) && FieldsOf(fields) == e.fields
    requires ErrnoTexts(log.shared.platform)
    modifies channel, cache.entries
    ensures Delivered(channel, Line(log, e), BlockSize(wanted, heapOk)) && cache.Valid()
  {
    hide Line, ErrnoTexts, AllPlaced;
    var b := new LineBuffer(channel, wanted, heapOk);
    assert cache !in b.Repr && cache.entries !in b.Repr;
    b.LockOutput();
    assert [] + [] + Line(log, e) == Line(log, e);
    AppendLine(b, log, e, cache, statics, fields, address);
    Finish(b, channel, Line(log, e));
  }

  // ----- the kvfmt path -----

  /** `pslog_append_console_kvfmt_prefix`: prepared or made on the spot. */
  method AppendKvPrefix(b: LineBuffer, sh: Shared, f: Field)
    requires b.Valid()
    modifies b.Repr
    ensures b.Appended(PrefixText(sh, f.key,
                                  if KvPrepared(sh, f) then KvPreparedColour(sh, f.value) else DatumColour(sh, f.value)))
  {
    hide LineBuffer.Valid, DatumColour, KvPrepared, PrefixText;
    if KvPrepared(sh, f) {
      b.AppendFast(PrefixText(sh, f.key, KvPreparedColour(sh, f.value)));
      return;
    }
    AppendKvSpot(b, sh, f.key, DatumColour(sh, f.value));
  }

  /** The prefix of a format's field made on the spot. */
  method AppendKvSpot(b: LineBuffer, sh: Shared, key: bytes, colour: bytes)
    requires b.Valid()
    modifies b.Repr
    ensures b.Appended(PrefixText(sh, key, colour))
  {
    hide LineBuffer.Valid, Paint;
    ghost var start := b.line;
    ghost var r, k, c := Paint(sh, sh.palette.reset), Paint(sh, sh.palette.key), Paint(sh, colour);
    AppendPaint(b, sh, sh.palette.reset);
    b.AppendFast([SPACE]);
    AppendPaint(b, sh, sh.palette.key);
    AppendKeyPart(b, sh, key, colour);
    Lead(start, r, [SPACE], k, key + [EQUALS], r + c);
  }

  method AppendKvText(b: LineBuffer, sh: Shared, f: Field)
    requires b.Valid() && Representable(f) && ErrnoTexts(sh.platform)
    modifies b.Repr
    ensures b.Appended(KvText(sh, f))
  {
    hide LineBuffer.Valid, Paint, DatumColour, KvPrepared, PrefixText, ConsoleString.Value, ConsoleLine.DatumText, ErrnoTexts;
    ghost var start := b.line;
    ghost var front :=
      PrefixText(sh, f.key, if KvPrepared(sh, f) then KvPreparedColour(sh, f.value) else DatumColour(sh, f.value));
    ghost var extra: bytes := if f.value.Errno? then Paint(sh, sh.palette.error) else [];
    AppendKvPrefix(b, sh, f);
    if f.value.Errno? {
      AppendPaint(b, sh, sh.palette.error);
    } else {
      assert start + front + [] == start + front;
    }
    Assoc(start, front, extra);
    if f.value.Str? {
      AppendConsoleString(b, f.value.text);
      Assoc(start, front + extra, ConsoleString.Value(f.value.text));
    } else {
      AppendDatum(b, sh, f.value);
      Assoc(start, front + extra, ConsoleLine.DatumText(sh, f.value));
    }
  }

  lemma {:induction false} KvStep(sh: Shared, fs: seq<Field>, i: nat, done: bytes)
    requires i < |fs|
    ensures done + KvText(sh, fs[i]) + KvSet(sh, fs[i + 1..]) == done + KvSet(sh, fs[i..])
  {
    hide KvText;
    assert fs[i..][1..] == fs[i + 1..];
    Assoc(done, KvText(sh, fs[i]), KvSet(sh, fs[i + 1..]));
  }

  lemma {:induction false} KvEnds(sh: Shared, fs: seq<Field>, done: bytes)
    ensures done + KvSet(sh, fs[|fs|..]) == done
    ensures [] + KvSet(sh, fs[0..]) == KvSet(sh, fs)
  {
    assert fs[|fs|..] == [] && fs[0..] == fs;
  }

  /** `pslog_append_console_kvfmt_fields` */
  method AppendKvSet(b: LineBuffer, sh: Shared, fs: seq<Field>)
    requires b.Valid() && AllRepresentable(fs) && ErrnoTexts(sh.platform)
    modifies b.Repr
    ensures b.Appended(KvSet(sh, fs))
  {
    hide LineBuffer.Valid, KvSet, KvText, Representable, ErrnoTexts;
    ghost var start := b.line;
    ghost var done: bytes := [];
    assert start + [] == start;
    KvEnds(sh, fs, done);
    for i := 0 to |fs|
      invariant b.Holds(start, done) && b.Kept()
      invariant done + KvSet(sh, fs[i..]) == KvSet(sh, fs)
    {
      KvStep(sh, fs, i, done);
      AppendKvText(b, sh, fs[i]);
      Assoc(start, done, KvText(sh, fs[i]));
      done := done + KvText(sh, fs[i]);
    }
    KvEnds(sh, fs, done);
  }

  /** The same for a line by format. */
  method AppendKvLine(b: LineBuffer, log: Logger, e: Event, cache: PrefixCaches.Cache, statics: seq<Placed>, address: bv64)
    requires b.outputLocked
    requires b.Valid() && cache.Valid() && Apart(b, cache) && cache.shared == log.shared && NulFree(e.msg)
    requires AllPlaced(statics) && FieldsOf(statics) == log.fields && AllRepresentable(e.fields)
    requires ErrnoTexts(log.shared.platform)
    modifies b.Repr, cache.entries
    ensures b.Appended(KvLine(log, e)) && cache.Valid() && Apart(b, cache) && b.len > 0
  {
    hide LineBuffer.Valid, Head, Foot, Statics, KvSet, ErrnoTexts, AllPlaced, AllRepresentable;
    ghost var start := b.line;
    AppendHead(b, log.shared, e);
    AppendStatics(b, log, cache, statics);
    AppendKvSet(b, log.shared, e.fields);
    AppendFoot(b, log, cache, address);
    Middle(start, Head(log.shared, e), Statics(log), KvSet(log.shared, e.fields), Foot(log));
  }

  /** `pslog_emit_console_kvfmt` */
  method EmitKv(log: Logger, e: Event, channel: Channel, wanted: nat, heapOk: bool, cache: PrefixCaches.Cache,
                statics: seq<Placed>, address: bv64)
    requires channel.Valid() && !channel.locked
    requires cache.Valid() && cache.shared == log.shared && NulFree(e.msg)
    requires AllPlaced(statics) && FieldsOf(statics) == log.fields && AllRepresentable(e.fields)
    requires ErrnoTexts(log.shared.platform)
    modifies channel, cache.entries
    ensures Delivered(channel, KvLine(log, e), BlockSize(wanted, heapOk)) && cache.Valid()
  {
    hide KvLine, ErrnoTexts, AllPlaced, AllRepresentable;
    var b := new LineBuffer(channel, wanted, heapOk);
    assert cache !in b.Repr && cache.entries !in b.Repr;
    b.LockOutput();
    assert [] + [] + KvLine(log, e) == KvLine(log, e);
    AppendKvLine(b, log, e, cache, statics, address);
    Finish(b, channel, KvLine(log, e));
  }
}
