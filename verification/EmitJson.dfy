/**
 The JSON emitters as they run (src/pslog_emit_json.c): values, members and
 field sets appended to a line buffer, the precomputed prefix, and whole lines
 streamed to the sinks.
 */
module EmitJson {
  import opened Bytes
  import opened Outputs
  import opened LineBuffers
  import opened Events
  import opened JsonLine
  import opened Render
  import opened Emission
  import JsonString
  import JsonText
  import Integers

  /** A string value or a text that is not finite, trusted or escaped. */
  method AppendText(b: LineBuffer, text: bytes, trusted: bool)
    requires b.Valid()
    modifies b.Repr
    ensures b.Appended(if trusted then JsonString.Quote(text) else JsonString.Encode(text))
  {
    if trusted {
      AppendQuoted(b, text);
    } else {
      AppendJsonString(b, text);
    }
  }

  method AppendNonFinite(b: LineBuffer, sh: Shared, d: Real)
    requires b.Valid() && !d.Finite?
    modifies b.Repr
    ensures b.Appended(DatumText(sh, Double(d)))
  {
    hide LineBuffer.Valid, JsonString.MaybeTrusted, JsonString.Encode;
    if sh.nonFiniteAsNull {
      b.AppendFast(JsonText.NULL_TEXT);
    } else if sh.colour {
      AppendMaybeTrusted(b, NonFinite(d));
    } else {
      AppendJsonString(b, NonFinite(d));
    }
  }

  /** `pslog_append_json_value_plain`, and the middle of the coloured one */
  method AppendDatum(b: LineBuffer, sh: Shared, v: Datum)
    requires b.Valid() && Representable(Field([], true, v)) && ErrnoTexts(sh.platform)
    modifies b.Repr
    ensures b.Appended(DatumText(sh, v))
  {
    hide LineBuffer.Valid, JsonString.MaybeTrusted, JsonString.Encode, JsonString.Quote, Hex, Integers.SignedText,
         Integers.Decimal;
    match v
    case Null => b.AppendFast(JsonText.NULL_TEXT);
    case Str(text, trusted, _) => AppendText(b, text, trusted);
    case Signed(i) => AppendSigned(b, i);
    case Unsigned(u) => AppendUnsigned(b, u);
    case Double(d) =>
      if d.Finite? {
        b.AppendFast(sh.platform.double(d.bits));
      } else {
        AppendNonFinite(b, sh, d);
      }
    case Bool(flag) => b.AppendFast(if flag then JsonText.TRUE_TEXT else JsonText.FALSE_TEXT);
    case Pointer(a) => AppendQuoted(b, sh.platform.pointer(a));
    case Blob(data) => AppendBlob(b, data);
    case Time(t) => AppendQuoted(b, sh.platform.time(t));
    case Duration(s) => AppendQuoted(b, sh.platform.duration(s));
    case Errno(code) =>
      assert NulFree(sh.platform.errno(code));
      AppendMaybeTrusted(b, sh.platform.errno(code));
  }

  /** A key, its colon and the colour before it. */
  method AppendKey(b: LineBuffer, sh: Shared, key: bytes, trusted: bool)
    requires b.Valid()
    modifies b.Repr
    ensures b.Appended(Paint(sh, sh.palette.key) +
                       ((if trusted then JsonString.Quote(key) else JsonString.Encode(key)) + [COLON]))
  {
    hide LineBuffer.Valid, JsonString.Encode, JsonString.Quote, Paint;
    ghost var start := b.line;
    ghost var k := if trusted then JsonString.Quote(key) else JsonString.Encode(key);
    AppendPaint(b, sh, sh.palette.key);
    AppendText(b, key, trusted);
    b.AppendFast([COLON]);
    Assoc(start, Paint(sh, sh.palette.key), k);
    Assoc(start, Paint(sh, sh.palette.key) + k, [COLON]);
    Assoc(Paint(sh, sh.palette.key), k, [COLON]);
  }

  /** A value between its colours. */
  method AppendPainted(b: LineBuffer, sh: Shared, v: Datum)
    requires b.Valid() && Representable(Field([], true, v)) && ErrnoTexts(sh.platform)
    modifies b.Repr
    ensures b.Appended(Paint(sh, DatumColour(sh, v)) + DatumText(sh, v) + Paint(sh, sh.palette.reset))
  {
    hide LineBuffer.Valid, DatumText, DatumColour, Paint;
    ghost var start := b.line;
    AppendPaint(b, sh, DatumColour(sh, v));
    AppendDatum(b, sh, v);
    AppendPaint(b, sh, sh.palette.reset);
    Assoc(start, Paint(sh, DatumColour(sh, v)), DatumText(sh, v));
    Assoc(start, Paint(sh, DatumColour(sh, v)) + DatumText(sh, v), Paint(sh, sh.palette.reset));
  }

  /** `pslog_append_json_field_plain` and `..._color`: nothing for a field without a key. */
  method AppendField(b: LineBuffer, sh: Shared, f: Field, first: bool)
    requires b.Valid() && Representable(f) && ErrnoTexts(sh.platform)
    modifies b.Repr
    ensures b.Appended(if f.key == [] then [] else (if first then [] else [COMMA]) + FieldMember(sh, f))
  {
    hide LineBuffer.Valid, DatumText, DatumColour, Paint, JsonString.Encode, JsonString.Quote;
    ghost var start := b.line;
    assert start + [] == start;
    if f.key == [] {
      return;
    }
    if !first {
      b.AppendFast([COMMA]);
    }
    ghost var lead: bytes := if first then [] else [COMMA];
    AppendKey(b, sh, f.key, f.trustedKey);
    AppendPainted(b, sh, f.value);
    ghost var k, v := Paint(sh, sh.palette.key) + (Key(f) + [COLON]),
      Paint(sh, DatumColour(sh, f.value)) + DatumText(sh, f.value) + Paint(sh, sh.palette.reset);
    Assoc(start, lead, k);
    Assoc(start, lead + k, v);
    Assoc(lead, k, v);
  }

  // ----- field sets and the precomputed prefix -----

  lemma {:induction false} SetStep(sh: Shared, fs: seq<Field>, i: nat, first: bool, done: bytes)
    requires i < |fs|
    ensures var f := fs[i];
            var piece := if f.key == [] then [] else (if first then [] else [COMMA]) + FieldMember(sh, f);
            done + piece + FieldSet(sh, fs[i + 1..], first && f.key == []) == done + FieldSet(sh, fs[i..], first)
  {
    hide FieldMember;
    assert fs[i..][1..] == fs[i + 1..];
    var f := fs[i];
    if f.key == [] {
      assert done + [] == done;
    } else {
      var piece := (if first then [] else [COMMA]) + FieldMember(sh, f);
      Assoc(done, piece, FieldSet(sh, fs[i + 1..], false));
    }
  }

  lemma {:induction false} SetEnds(sh: Shared, fs: seq<Field>, first: bool, done: bytes)
    ensures done + FieldSet(sh, fs[|fs|..], first) == done
    ensures [] + FieldSet(sh, fs[0..], first) == FieldSet(sh, fs, first)
  {
    assert fs[|fs|..] == [] && fs[0..] == fs;
  }

  /** `pslog_append_json_field_set_plain` and `..._color` */
  method AppendFieldSet(b: LineBuffer, sh: Shared, fs: seq<Field>, first: bool) returns (first': bool)
    requires b.Valid() && AllRepresentable(fs) && ErrnoTexts(sh.platform)
    modifies b.Repr
    ensures b.Appended(FieldSet(sh, fs, first))
    ensures first' <==> first && forall i :: 0 <= i < |fs| ==> fs[i].key == []
  {
    hide LineBuffer.Valid, FieldSet, FieldMember, Representable, ErrnoTexts;
    ghost var start := b.line;
    ghost var done: bytes := [];
    assert start + [] == start;
    SetEnds(sh, fs, first, done);
    first' := first;
    for i := 0 to |fs|
      invariant b.Holds(start, done) && b.Kept()
      invariant done + FieldSet(sh, fs[i..], first') == FieldSet(sh, fs, first)
      invariant first' <==> first && forall k :: 0 <= k < i ==> fs[k].key == []
    {
      ghost var piece := if fs[i].key == [] then [] else (if first' then [] else [COMMA]) + FieldMember(sh, fs[i]);
      SetStep(sh, fs, i, first', done);
      if fs[i].key != [] {
        AppendField(b, sh, fs[i], first');
        first' := false;
      } else {
        assert done + [] == done;
      }
      Assoc(start, done, piece);
      done := done + piece;
    }
    SetEnds(sh, fs, first', done);
  }

  lemma {:induction false} PrefixStep(sh: Shared, fs: seq<Field>, i: nat, done: bytes)
    requires i < |fs|
    ensures done + Piece(sh, fs[i]) + Prefix(sh, fs[i + 1..]) == done + Prefix(sh, fs[i..])
  {
    hide Piece;
    assert fs[i..][1..] == fs[i + 1..];
    Assoc(done, Piece(sh, fs[i]), Prefix(sh, fs[i + 1..]));
  }

  lemma {:induction false} PrefixEnds(sh: Shared, fs: seq<Field>, done: bytes)
    ensures done + Prefix(sh, fs[|fs|..]) == done
    ensures [] + Prefix(sh, fs[0..]) == Prefix(sh, fs)
  {
    assert fs[|fs|..] == [] && fs[0..] == fs;
  }

  /** `pslog_append_json_field_prefix`, which asks every field for its comma. */
  method AppendPrefix(b: LineBuffer, sh: Shared, fs: seq<Field>)
    requires b.Valid() && AllRepresentable(fs) && ErrnoTexts(sh.platform)
    modifies b.Repr
    ensures b.Appended(Prefix(sh, fs))
  {
    hide LineBuffer.Valid, Prefix, FieldMember, Representable, ErrnoTexts;
    ghost var start := b.line;
    ghost var done: bytes := [];
    assert start + [] == start;
    PrefixEnds(sh, fs, done);
    for i := 0 to |fs|
      invariant b.Holds(start, done) && b.Kept()
      invariant done + Prefix(sh, fs[i..]) == Prefix(sh, fs)
    {
      PrefixStep(sh, fs, i, done);
      AppendField(b, sh, fs[i], false);
      Assoc(start, done, Piece(sh, fs[i]));
      done := done + Piece(sh, fs[i]);
    }
    PrefixEnds(sh, fs, done);
  }

  /** `pslog_clone_with_fields`: the fields are copied, the prefix is built in a growing buffer. */
  method Derive(log: Logger, fs: seq<Field>, capacity: nat) returns (child: Logger)
    requires log.shared.json && AllRepresentable(log.fields) && AllRepresentable(fs) && ErrnoTexts(log.shared.platform)
    ensures child == With(log, fs)
  {
    var all := log.fields + fs;
    var b := new LineBuffer(null, capacity, true);
    AppendPrefix(b, log.shared, all);
    assert [] + Prefix(log.shared, all) == Prefix(log.shared, all);
    var prefix := b.data[..b.len];
    assert Concat([]) + prefix == prefix;
    child := log.(fields := all, prefix := prefix);
  }

  // ----- whole lines -----

  /** A fixed key in a colour, and the colour of the value that follows. */
  method AppendLead(b: LineBuffer, sh: Shared, keyColour: bytes, key: bytes, valueColour: bytes)
    requires b.Valid()
    modifies b.Repr
    ensures b.Appended(Paint(sh, keyColour) + (JsonString.Quote(key) + [COLON]) + Paint(sh, valueColour))
  {
    hide LineBuffer.Valid, JsonString.Quote, Paint;
    ghost var start := b.line;
    AppendPaint(b, sh, keyColour);
    AppendQuoted(b, key);
    b.AppendFast([COLON]);
    AppendPaint(b, sh, valueColour);
    ghost var p, q := Paint(sh, keyColour), JsonString.Quote(key);
    Assoc(start, p, q);
    Assoc(start, p + q, [COLON]);
    Assoc(p, q, [COLON]);
    Assoc(start, p + (q + [COLON]), Paint(sh, valueColour));
  }

  /** What follows the colour of a value: its text and the reset. */
  lemma Closed(start: bytes, lead: bytes, c: bytes, value: bytes, reset: bytes)
    ensures start + (lead + c) + value + reset == start + (lead + (c + value + reset))
  {
    Assoc(start, lead + c, value);
    Assoc(start, lead + c + value, reset);
    Assoc(lead, c, value);
    Assoc(lead, c + value, reset);
  }

  method AppendStampMember(b: LineBuffer, sh: Shared, stamp: bytes)
    requires b.Valid()
    modifies b.Repr
    ensures b.Appended(StampMember(sh, stamp))
  {
    hide LineBuffer.Valid, Paint;
    ghost var start := b.line;
    ghost var lead := Paint(sh, sh.palette.key) + (JsonString.Quote(StampKey(sh)) + [COLON]) + Paint(sh, sh.palette.reset);
    AppendLead(b, sh, sh.palette.key, StampKey(sh), sh.palette.reset);
    AppendPaint(b, sh, sh.palette.timestamp);
    ghost var mid := b.line;
    b.AppendFast([QUOTE]);
    AppendStamp(b, stamp);
    b.AppendFast([QUOTE]);
    Assoc(mid, [QUOTE], stamp);
    Assoc(mid, [QUOTE] + stamp, [QUOTE]);
    AppendPaint(b, sh, sh.palette.reset);
    hide JsonString.Quote;
    Assoc(start, lead, Paint(sh, sh.palette.timestamp));
    Closed(start, lead, Paint(sh, sh.palette.timestamp), JsonString.Quote(stamp), Paint(sh, sh.palette.reset));
  }

  /** `pslog_append_json_level_field_color_cached_or_dynamic`, and the literal of the plain emitter */
  method AppendLevelMember(b: LineBuffer, sh: Shared, key: bytes, l: Level)
    requires b.Valid()
    modifies b.Repr
    ensures b.Appended(LevelMember(sh, key, l))
  {
    hide LineBuffer.Valid, JsonString.Quote, Paint, LevelColour, LevelText, Prepared;
    if !sh.colour || Prepared(sh, key, l) {
      b.AppendFast(LevelMember(sh, key, l));
      return;
    }
    ghost var start := b.line;
    ghost var lead := Paint(sh, sh.palette.key) + (JsonString.Quote(key) + [COLON]);
    AppendLead(b, sh, sh.palette.key, key, LevelColour(sh.palette, l));
    AppendQuoted(b, LevelText(l));
    AppendPaint(b, sh, sh.palette.reset);
    Closed(start, lead, Paint(sh, LevelColour(sh.palette, l)), JsonString.Quote(LevelText(l)), Paint(sh, sh.palette.reset));
  }

  /** `pslog_append_json_message_field_plain` and `..._color` */
  method AppendMessageMember(b: LineBuffer, sh: Shared, msg: bytes)
    requires b.Valid() && NulFree(msg)
    modifies b.Repr
    ensures b.Appended(MessageMember(sh, msg))
  {
    hide LineBuffer.Valid, JsonString.Quote, Paint, JsonString.MaybeTrusted;
    ghost var start := b.line;
    ghost var lead := Paint(sh, sh.palette.messageKey) + (JsonString.Quote(MessageKey(sh)) + [COLON]);
    AppendLead(b, sh, sh.palette.messageKey, MessageKey(sh), sh.palette.message);
    AppendMaybeTrusted(b, msg);
    AppendPaint(b, sh, sh.palette.reset);
    Closed(start, lead, Paint(sh, sh.palette.message), JsonString.MaybeTrusted(msg), Paint(sh, sh.palette.reset));
  }

  method AppendHead(b: LineBuffer, sh: Shared, e: Event)
    requires b.Valid() && NulFree(e.msg)
    modifies b.Repr
    ensures b.Appended(Head(sh, e))
  {
    hide LineBuffer.Valid, StampMember, LevelMember, MessageMember;
    ghost var start := b.line;
    ghost var t: bytes := [JsonText.OPEN];
    b.AppendFast([JsonText.OPEN]);
    ghost var stamp: bytes := if sh.timestamps then StampMember(sh, e.stamp) + [COMMA] else [];
    if sh.timestamps {
      AppendStampMember(b, sh, e.stamp);
      Assoc(start + t, StampMember(sh, e.stamp), [COMMA]);
      b.AppendFast([COMMA]);
    } else {
      assert start + t + [] == start + t;
    }
    Assoc(start, t, stamp);
    AppendLevelMember(b, sh, LevelKey(sh), Slot(e.level));
    Assoc(start, t + stamp, LevelMember(sh, LevelKey(sh), Slot(e.level)));
    t := t + stamp + LevelMember(sh, LevelKey(sh), Slot(e.level));
    ghost var message: bytes := if e.msg == [] then [] else [COMMA] + MessageMember(sh, e.msg);
    if e.msg != [] {
      b.AppendFast([COMMA]);
      AppendMessageMember(b, sh, e.msg);
      Assoc(start + t, [COMMA], MessageMember(sh, e.msg));
    } else {
      assert start + t + [] == start + t;
    }
    Assoc(start, t, message);
  }

  method AppendFoot(b: LineBuffer, log: Logger)
    requires b.Valid()
    modifies b.Repr
    ensures b.Appended(Foot(log)) && b.len > 0
  {
    hide LineBuffer.Valid, LevelMember;
    ghost var start := b.line;
    ghost var level: bytes :=
      if log.includeLevel then [COMMA] + LevelMember(log.shared, LOGLEVEL, log.minLevel) else [];
    if log.includeLevel {
      b.AppendFast([COMMA]);
      AppendLevelMember(b, log.shared, LOGLEVEL, log.minLevel);
      Assoc(start, [COMMA], LevelMember(log.shared, LOGLEVEL, log.minLevel));
    } else {
      assert start + [] == start;
    }
    b.AppendFast([JsonText.CLOSE]);
    b.AppendFast([NL]);
    Assoc(start, level, [JsonText.CLOSE]);
    Assoc(start, level + [JsonText.CLOSE], [NL]);
  }

  method AppendStatics(b: LineBuffer, log: Logger)
    requires b.Valid() && AllRepresentable(log.fields) && ErrnoTexts(log.shared.platform)
    modifies b.Repr
    ensures b.Appended(Statics(log))
  {
    if log.prefix != [] {
      b.AppendFast(log.prefix);
    } else {
      var _ := AppendFieldSet(b, log.shared, log.fields, false);
    }
  }

  method AppendLine(b: LineBuffer, log: Logger, e: Event)
    requires b.Valid() && NulFree(e.msg) && AllRepresentable(log.fields) && AllRepresentable(e.fields)
    requires ErrnoTexts(log.shared.platform)
    modifies b.Repr
    ensures b.Appended(Line(log, e)) && b.len > 0
  {
    hide LineBuffer.Valid, Head, Foot, Statics, FieldSet, AllRepresentable, ErrnoTexts;
    ghost var start := b.line;
    ghost var h, m, f := Head(log.shared, e), FieldSet(log.shared, e.fields, false), Foot(log);
    AppendHead(b, log.shared, e);
    AppendStatics(b, log);
    var _ := AppendFieldSet(b, log.shared, e.fields, false);
    AppendFoot(b, log);
    Middle(start, h, Statics(log), m, f);
  }

  /**
   `pslog_emit_json`: with a fresh buffer of any capacity, over open sinks that
   take everything, each sink sees exactly the canonical blocks of the line; in
   any case the output mutex is free again.
   */
  method Emit(log: Logger, e: Event, channel: Channel, wanted: nat, heapOk: bool)
    requires channel.Valid() && !channel.locked
    requires NulFree(e.msg) && AllRepresentable(log.fields) && AllRepresentable(e.fields)
    requires ErrnoTexts(log.shared.platform)
    modifies channel
    ensures Delivered(channel, Line(log, e), BlockSize(wanted, heapOk))
  {
    hide Line, AllRepresentable, ErrnoTexts;
    var b := new LineBuffer(channel, wanted, heapOk);
    assert [] + Line(log, e) == Line(log, e);
    AppendLine(b, log, e);
    Finish(b, channel, Line(log, e));
  }

  // ----- the kvfmt path -----

  method AppendKvDatum(b: LineBuffer, sh: Shared, v: Datum)
    requires b.Valid() && Representable(Field([], true, v)) && ErrnoTexts(sh.platform)
    modifies b.Repr
    ensures b.Appended(KvDatum(sh, v))
  {
    hide LineBuffer.Valid, JsonString.MaybeTrusted, DatumText, ErrnoTexts;
    if v.Str? {
      AppendMaybeTrusted(b, v.text);
    } else if v.Double? && !v.d.Finite? && !sh.nonFiniteAsNull {
      AppendMaybeTrusted(b, NonFinite(v.d));
    } else {
      AppendDatum(b, sh, v);
    }
  }

  /** One field of a format: its key quoted as it stands, its value in colours. */
  method AppendKvMember(b: LineBuffer, sh: Shared, f: Field)
    requires b.Valid() && Representable(f) && ErrnoTexts(sh.platform)
    modifies b.Repr
    ensures b.Appended(KvMember(sh, f))
  {
    hide LineBuffer.Valid, KvDatum, DatumColour, Paint, JsonString.Quote, ErrnoTexts;
    ghost var start := b.line;
    ghost var lead := Paint(sh, sh.palette.key) + (JsonString.Quote(f.key) + [COLON]);
    AppendLead(b, sh, sh.palette.key, f.key, DatumColour(sh, f.value));
    AppendKvDatum(b, sh, f.value);
    AppendPaint(b, sh, sh.palette.reset);
    Closed(start, lead, Paint(sh, DatumColour(sh, f.value)), KvDatum(sh, f.value), Paint(sh, sh.palette.reset));
  }

  lemma {:induction false} KvStep(sh: Shared, fs: seq<Field>, i: nat, done: bytes)
    requires i < |fs|
    ensures done + ([COMMA] + KvMember(sh, fs[i])) + KvSet(sh, fs[i + 1..]) == done + KvSet(sh, fs[i..])
  {
    hide KvMember;
    assert fs[i..][1..] == fs[i + 1..];
    Assoc(done, [COMMA] + KvMember(sh, fs[i]), KvSet(sh, fs[i + 1..]));
  }

  lemma {:induction false} KvEnds(sh: Shared, fs: seq<Field>, done: bytes)
    ensures done + KvSet(sh, fs[|fs|..]) == done
    ensures [] + KvSet(sh, fs[0..]) == KvSet(sh, fs)
  {
    assert fs[|fs|..] == [] && fs[0..] == fs;
  }

  /** `pslog_append_json_kvfmt_fields_plain` and `..._color`, where the level field is already out */
  method AppendKvSet(b: LineBuffer, sh: Shared, fs: seq<Field>)
    requires b.Valid() && AllRepresentable(fs) && ErrnoTexts(sh.platform)
    modifies b.Repr
    ensures b.Appended(KvSet(sh, fs))
  {
    hide LineBuffer.Valid, KvSet, KvMember, Representable, ErrnoTexts;
    ghost var start := b.line;
    ghost var done: bytes := [];
    assert start + [] == start;
    KvEnds(sh, fs, done);
    for i := 0 to |fs|
      invariant b.Holds(start, done) && b.Kept()
      invariant done + KvSet(sh, fs[i..]) == KvSet(sh, fs)
    {
      KvStep(sh, fs, i, done);
      b.AppendFast([COMMA]);
      AppendKvMember(b, sh, fs[i]);
      Assoc(start + done, [COMMA], KvMember(sh, fs[i]));
      Assoc(start, done, [COMMA] + KvMember(sh, fs[i]));
      done := done + ([COMMA] + KvMember(sh, fs[i]));
    }
    KvEnds(sh, fs, done);
  }

  method AppendKvLine(b: LineBuffer, log: Logger, e: Event)
    requires b.Valid() && NulFree(e.msg) && AllRepresentable(log.fields) && AllRepresentable(e.fields)
    requires ErrnoTexts(log.shared.platform)
    modifies b.Repr
    ensures b.Appended(KvLine(log, e)) && b.len > 0
  {
    hide LineBuffer.Valid, Head, Foot, Statics, KvSet, AllRepresentable, ErrnoTexts;
    ghost var start := b.line;
    AppendHead(b, log.shared, e);
    AppendStatics(b, log);
    AppendKvSet(b, log.shared, e.fields);
    AppendFoot(b, log);
    Middle(start, Head(log.shared, e), Statics(log), KvSet(log.shared, e.fields), Foot(log));
  }

  /** `pslog_emit_json_kvfmt` */
  method EmitKv(log: Logger, e: Event, channel: Channel, wanted: nat, heapOk: bool)
    requires channel.Valid() && !channel.locked
    requires NulFree(e.msg) && AllRepresentable(log.fields) && AllRepresentable(e.fields)
    requires ErrnoTexts(log.shared.platform)
    modifies channel
    ensures Delivered(channel, KvLine(log, e), BlockSize(wanted, heapOk))
  {
    hide KvLine, AllRepresentable, ErrnoTexts;
    var b := new LineBuffer(channel, wanted, heapOk);
    assert [] + KvLine(log, e) == KvLine(log, e);
    AppendKvLine(b, log, e);
    Finish(b, channel, KvLine(log, e));
  }
}
