/**
 JSON lines (src/pslog_emit_json.c), plain and coloured, as functions, and what
 a reader of JSON makes of them.
 */
module JsonLine {
  import opened Bytes
  import opened Events
  import JsonText
  import JsonString
  import Integers

  const NAN_TEXT: bytes := [0x4e, 0x61, 0x4e]
  const PLUS_INF: bytes := [0x2b, 0x49, 0x6e, 0x66]
  const MINUS_INF: bytes := [0x2d, 0x49, 0x6e, 0x66]
  const TS: bytes := [0x74, 0x73]
  const TIME: bytes := [0x74, 0x69, 0x6d, 0x65]
  const LVL: bytes := [0x6c, 0x76, 0x6c]
  const LEVEL: bytes := [0x6c, 0x65, 0x76, 0x65, 0x6c]
  const MSG: bytes := [0x6d, 0x73, 0x67]
  const MESSAGE: bytes := [0x6d, 0x65, 0x73, 0x73, 0x61, 0x67, 0x65]
  const LITERAL_CAPACITY: nat := 128

  function StampKey(sh: Shared): bytes {
    if sh.verbose then TIME else TS
  }

  function LevelKey(sh: Shared): bytes {
    if sh.verbose then LEVEL else LVL
  }

  function MessageKey(sh: Shared): bytes {
    if sh.verbose then MESSAGE else MSG
  }

  /** Text for a number that is not finite, by the policy in force. */
  function NonFinite(d: Real): bytes
    requires !d.Finite?
  {
    match d
    case NaN => NAN_TEXT
    case Infinite(negative) => if negative then MINUS_INF else PLUS_INF
  }

  /** `pslog_append_json_value_plain`, and the coloured one between its colours. */
  function DatumText(sh: Shared, v: Datum): bytes {
    match v
    case Null => JsonText.NULL_TEXT
    case Str(text, trusted, _) => if trusted then JsonString.Quote(text) else JsonString.Encode(text)
    case Signed(i) => Integers.SignedText(i)
    case Unsigned(u) => Integers.Decimal(u)
    case Double(d) =>
      if d.Finite? then sh.platform.double(d.bits)
      else if sh.nonFiniteAsNull then JsonText.NULL_TEXT
      else if sh.colour then JsonString.MaybeTrusted(NonFinite(d))
      else JsonString.Encode(NonFinite(d))
    case Bool(b) => if b then JsonText.TRUE_TEXT else JsonText.FALSE_TEXT
    case Pointer(a) => JsonString.Quote(sh.platform.pointer(a))
    case Blob(data) => JsonString.Quote(Hex(data))
    case Time(t) => JsonString.Quote(sh.platform.time(t))
    case Duration(s) => JsonString.Quote(sh.platform.duration(s))
    case Errno(code) => JsonString.MaybeTrusted(sh.platform.errno(code))
  }

  function DatumColour(sh: Shared, v: Datum): bytes {
    match v
    case Null => sh.palette.nullValue
    case Str(_, _, _) => sh.palette.str
    case Signed(_) => sh.palette.number
    case Unsigned(_) => sh.palette.number
    case Double(d) =>
      if d.Finite? then sh.palette.number
      else if sh.nonFiniteAsNull then sh.palette.nullValue
      else sh.palette.str
    case Bool(_) => sh.palette.boolean
    case Pointer(_) => sh.palette.str
    case Blob(_) => sh.palette.str
    case Time(_) => sh.palette.timestamp
    case Duration(_) => sh.palette.str
    case Errno(_) => sh.palette.error
  }

  function Key(f: Field): bytes {
    if f.trustedKey then JsonString.Quote(f.key) else JsonString.Encode(f.key)
  }

  /** One field without its comma. */
  function FieldMember(sh: Shared, f: Field): bytes {
    Paint(sh, sh.palette.key) + (Key(f) + [COLON]) +
    (Paint(sh, DatumColour(sh, f.value)) + DatumText(sh, f.value) + Paint(sh, sh.palette.reset))
  }

  /** `pslog_append_json_field_set_*`: fields without a key are dropped, commas as needed. */
  function FieldSet(sh: Shared, fs: seq<Field>, first: bool): bytes {
    if fs == [] then []
    else if fs[0].key == [] then FieldSet(sh, fs[1..], first)
    else (if first then [] else [COMMA]) + FieldMember(sh, fs[0]) + FieldSet(sh, fs[1..], false)
  }

  function StampMember(sh: Shared, stamp: bytes): bytes {
    Paint(sh, sh.palette.key) + (JsonString.Quote(StampKey(sh)) + [COLON]) + Paint(sh, sh.palette.reset) +
    (Paint(sh, sh.palette.timestamp) + JsonString.Quote(stamp) + Paint(sh, sh.palette.reset))
  }

  /** A level as one piece of text, as it is prepared and as it is made on the fly. */
  function LevelPiece(sh: Shared, key: bytes, l: Level): bytes {
    Paint(sh, sh.palette.key) + (JsonString.Quote(key) + [COLON]) +
    (Paint(sh, LevelColour(sh.palette, l)) + JsonString.Quote(LevelText(l)) + Paint(sh, sh.palette.reset))
  }

  /** Whether the prepared piece fits its slot. */
  predicate Prepared(sh: Shared, key: bytes, l: Level) {
    |LevelPiece(sh, key, Slot(l))| + 1 <= LITERAL_CAPACITY
  }

  /** With colours a prepared piece is used where there is one, chosen by slot. */
  function LevelMember(sh: Shared, key: bytes, l: Level): bytes {
    if sh.colour && Prepared(sh, key, l) then LevelPiece(sh, key, Slot(l)) else LevelPiece(sh, key, l)
  }

  function MessageMember(sh: Shared, msg: bytes): bytes {
    Paint(sh, sh.palette.messageKey) + (JsonString.Quote(MessageKey(sh)) + [COLON]) +
    (Paint(sh, sh.palette.message) + JsonString.MaybeTrusted(msg) + Paint(sh, sh.palette.reset))
  }

  /** What stands before the static fields. */
  function Head(sh: Shared, e: Event): bytes {
    [JsonText.OPEN] +
    (if sh.timestamps then StampMember(sh, e.stamp) + [COMMA] else []) +
    LevelMember(sh, LevelKey(sh), Slot(e.level)) +
    (if e.msg == [] then [] else [COMMA] + MessageMember(sh, e.msg))
  }

  function Foot(log: Logger): bytes {
    (if log.includeLevel then [COMMA] + LevelMember(log.shared, LOGLEVEL, log.minLevel) else []) +
    [JsonText.CLOSE] + [NL]
  }

  /** The static fields: precomputed where the logger has such a text. */
  function Statics(log: Logger): bytes {
    if log.prefix != [] then log.prefix else FieldSet(log.shared, log.fields, false)
  }

  /** `pslog_emit_json_plain` and `pslog_emit_json_color` */
  function Line(log: Logger, e: Event): bytes {
    Head(log.shared, e) + (Statics(log) + FieldSet(log.shared, e.fields, false)) + Foot(log)
  }

  // ----- the kvfmt path -----

  /** A value as the kvfmt emitter renders it: every text goes through the trust check. */
  function KvDatum(sh: Shared, v: Datum): bytes {
    if v.Str? then JsonString.MaybeTrusted(v.text)
    else if v.Double? && !v.d.Finite? && !sh.nonFiniteAsNull then JsonString.MaybeTrusted(NonFinite(v.d))
    else DatumText(sh, v)
  }

  /** Keys of a format are quoted as they stand; the prepared text and the other one are the same. */
  function KvMember(sh: Shared, f: Field): bytes {
    Paint(sh, sh.palette.key) + (JsonString.Quote(f.key) + [COLON]) +
    (Paint(sh, DatumColour(sh, f.value)) + KvDatum(sh, f.value) + Paint(sh, sh.palette.reset))
  }

  /** `pslog_append_json_kvfmt_fields_*`, after the level field */
  function KvSet(sh: Shared, fs: seq<Field>): bytes {
    if fs == [] then [] else [COMMA] + KvMember(sh, fs[0]) + KvSet(sh, fs[1..])
  }

  /** `pslog_emit_json_kvfmt` */
  function KvLine(log: Logger, e: Event): bytes {
    Head(log.shared, e) + (Statics(log) + KvSet(log.shared, e.fields)) + Foot(log)
  }

  /** One field of a precomputed text: its comma first, nothing at all without a key. */
  function Piece(sh: Shared, f: Field): bytes {
    if f.key == [] then [] else [COMMA] + FieldMember(sh, f)
  }

  /** `pslog_append_json_field_prefix` */
  function Prefix(sh: Shared, fs: seq<Field>): bytes {
    if fs == [] then [] else Piece(sh, fs[0]) + Prefix(sh, fs[1..])
  }

  // ----- derivation is transparent -----

  /** The precomputed text is the text of the static fields. */
  predicate Consistent(log: Logger) {
    log.prefix == Prefix(log.shared, log.fields)
  }

  /** `with()` */
  function With(log: Logger, fs: seq<Field>): Logger {
    log.(fields := log.fields + fs, prefix := Prefix(log.shared, log.fields + fs))
  }

  lemma {:induction false} PrefixIsFieldSet(sh: Shared, fs: seq<Field>)
    ensures Prefix(sh, fs) == FieldSet(sh, fs, false)
  {
    if fs == [] {
    } else {
      hide FieldMember;
      PrefixIsFieldSet(sh, fs[1..]);
      assert [] + Prefix(sh, fs[1..]) == Prefix(sh, fs[1..]);
    }
  }

  lemma {:induction false} PrefixConcat(sh: Shared, a: seq<Field>, b: seq<Field>)
    ensures Prefix(sh, a + b) == Prefix(sh, a) + Prefix(sh, b)
  {
    hide Piece;
    if a == [] {
      assert a + b == b;
    } else {
      PrefixConcat(sh, a[1..], b);
      assert (a + b)[1..] == a[1..] + b;
      Assoc(Piece(sh, a[0]), Prefix(sh, a[1..]), Prefix(sh, b));
    }
  }

  lemma StaticsArePrefix(log: Logger)
    requires Consistent(log)
    ensures Statics(log) == Prefix(log.shared, log.fields)
  {
    PrefixIsFieldSet(log.shared, log.fields);
  }

  /** Static fields and call fields together are the fields in order. */
  lemma {:induction false} MiddleIsPrefix(log: Logger, fs: seq<Field>)
    requires Consistent(log)
    ensures Statics(log) + FieldSet(log.shared, fs, false) == Prefix(log.shared, log.fields + fs)
  {
    hide Prefix, FieldSet, Piece;
    StaticsArePrefix(log);
    PrefixIsFieldSet(log.shared, fs);
    PrefixConcat(log.shared, log.fields, fs);
  }

  /**
   Logging `c` on a logger derived twice gives byte for byte the line of logging
   all the fields on the logger itself, with and without colours.
   */
  lemma WithIsTransparent(log: Logger, a: seq<Field>, b: seq<Field>, e: Event)
    requires Consistent(log)
    ensures Consistent(With(With(log, a), b))
    ensures Line(With(With(log, a), b), e) == Line(log, e.(fields := a + b + e.fields))
  {
    hide FieldMember, FieldSet, Prefix, LevelMember, StampMember, MessageMember, Statics;
    var child := With(With(log, a), b);
    MiddleIsPrefix(child, e.fields);
    MiddleIsPrefix(log, a + b + e.fields);
    assert child.fields + e.fields == log.fields + (a + b + e.fields);
  }
}
