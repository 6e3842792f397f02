/**
 Console lines (src/pslog_emit_console.c) as functions: fields with a cached
 prefix and without one, the kvfmt path, and what derivation, colours and the
 cache change about them: nothing a reader without colours could see.
 */
module ConsoleLine {
  import opened Bytes
  import opened Events
  import opened Ansi
  import ConsoleString
  import Integers
  import JsonText
  import JsonString

  const NAN_TEXT: bytes := [0x6e, 0x61, 0x6e]
  const INF_TEXT: bytes := [0x69, 0x6e, 0x66]
  /** The prefix of a cached field has 128 bytes, its terminator included. */
  const PREFIX_LIMIT: nat := 127
  const FRAGMENT_CAPACITY: nat := 64
  const KV_PREFIX_CAPACITY: nat := 128

  function DoubleText(sh: Shared, d: Real): bytes {
    match d
    case NaN => NAN_TEXT
    case Infinite(negative) => if negative then [MINUS] + INF_TEXT else INF_TEXT
    case Finite(bits) => sh.platform.double(bits)
  }

  /** The text of a value, without its colour. */
  function DatumText(sh: Shared, v: Datum): bytes {
    match v
    case Null => JsonText.NULL_TEXT
    case Str(text, _, simple) => if simple then text else ConsoleString.Value(text)
    case Signed(i) => Integers.SignedText(i)
    case Unsigned(u) => Integers.Decimal(u)
    case Double(d) => DoubleText(sh, d)
    case Bool(b) => if b then JsonText.TRUE_TEXT else JsonText.FALSE_TEXT
    case Pointer(a) => sh.platform.pointer(a)
    case Blob(data) => JsonString.Quote(Hex(data))
    case Time(t) => sh.platform.time(t)
    case Duration(s) => sh.platform.duration(s)
    case Errno(code) => ConsoleString.Value(sh.platform.errno(code))
  }

  /** `pslog_console_field_value_color` */
  function TypeColour(sh: Shared, t: FieldType): bytes {
    match t
    case NullType => sh.palette.nullValue
    case StringType => sh.palette.str
    case SignedType => sh.palette.number
    case UnsignedType => sh.palette.number
    case DoubleType => sh.palette.number
    case BoolType => sh.palette.boolean
    case PointerType => sh.palette.number
    case BytesType => sh.palette.str
    case TimeType => sh.palette.timestamp
    case DurationType => sh.palette.str
    case ErrnoType => sh.palette.error
  }

  function DatumColour(sh: Shared, v: Datum): bytes {
    TypeColour(sh, TypeOf(v))
  }

  /** The prefix that is cached: the reset comes before the space. */
  function PrefixText(sh: Shared, key: bytes, valueColour: bytes): bytes {
    Paint(sh, sh.palette.reset) + [SPACE] + Paint(sh, sh.palette.key) + (key + [EQUALS]) +
    (Paint(sh, sh.palette.reset) + Paint(sh, valueColour))
  }

  /** The prefix without the cache: the space comes before the reset. */
  function FallbackText(sh: Shared, key: bytes, valueColour: bytes): bytes {
    [SPACE] + Paint(sh, sh.palette.reset) + Paint(sh, sh.palette.key) + (key + [EQUALS]) +
    (Paint(sh, sh.palette.reset) + Paint(sh, valueColour))
  }

  predicate Cacheable(sh: Shared, key: bytes, valueColour: bytes) {
    |PrefixText(sh, key, valueColour)| <= PREFIX_LIMIT
  }

  /** `pslog_append_console_field_cached` */
  function FieldText(sh: Shared, f: Field): bytes {
    var colour := DatumColour(sh, f.value);
    if f.key == [] then []
    else
      (if Cacheable(sh, f.key, colour) then PrefixText(sh, f.key, colour) else FallbackText(sh, f.key, colour)) +
      DatumText(sh, f.value)
  }

  /** `pslog_append_console_field_prefix` */
  function Prefix(sh: Shared, fs: seq<Field>): bytes {
    if fs == [] then [] else FieldText(sh, fs[0]) + Prefix(sh, fs[1..])
  }

  /** The prepared level: its label alone where the coloured form has no room or no colour. */
  function LevelFragment(sh: Shared, l: Level): bytes {
    var colour := LevelColour(sh.palette, l);
    if sh.colour && colour != [] && |LevelLabel(l)| + |colour| + |sh.palette.reset| < FRAGMENT_CAPACITY then
      colour + LevelLabel(l) + sh.palette.reset
    else LevelLabel(l)
  }

  function Head(sh: Shared, e: Event): bytes {
    (if sh.timestamps then Paint(sh, sh.palette.timestamp) + e.stamp + [SPACE] else []) +
    LevelFragment(sh, Slot(e.level)) +
    (if e.msg == [] then [] else [SPACE] + Paint(sh, sh.palette.message) + ConsoleString.Message(e.msg))
  }

  function LevelField(l: Level): Field {
    Field(LOGLEVEL, true, Str(LevelText(l), true, true))
  }

  function Foot(log: Logger): bytes {
    (if log.includeLevel then FieldText(log.shared, LevelField(log.minLevel)) else []) +
    Paint(log.shared, log.shared.palette.reset) + [NL]
  }

  function Statics(log: Logger): bytes {
    if log.prefix != [] then log.prefix else Prefix(log.shared, log.fields)
  }

  /** `pslog_emit_console` */
  function Line(log: Logger, e: Event): bytes {
    Head(log.shared, e) + (Statics(log) + Prefix(log.shared, e.fields)) + Foot(log)
  }

  // ----- the kvfmt path -----

  /** The colour a prepared prefix ends with: for `%m` there is none yet. */
  function KvPreparedColour(sh: Shared, v: Datum): bytes {
    if v.Errno? then [] else DatumColour(sh, v)
  }

  predicate KvPrepared(sh: Shared, f: Field) {
    |PrefixText(sh, f.key, KvPreparedColour(sh, f.value))| < KV_PREFIX_CAPACITY
  }

  /** The value of `%m` always brings its own colour, so an unprepared prefix doubles it. */
  function KvText(sh: Shared, f: Field): bytes {
    PrefixText(sh, f.key, if KvPrepared(sh, f) then KvPreparedColour(sh, f.value) else DatumColour(sh, f.value)) +
    (if f.value.Errno? then Paint(sh, sh.palette.error) else []) +
    (if f.value.Str? then ConsoleString.Value(f.value.text) else DatumText(sh, f.value))
  }

  function KvSet(sh: Shared, fs: seq<Field>): bytes {
    if fs == [] then [] else KvText(sh, fs[0]) + KvSet(sh, fs[1..])
  }

  /** `pslog_emit_console_kvfmt` */
  function KvLine(log: Logger, e: Event): bytes {
    Head(log.shared, e) + (Statics(log) + KvSet(log.shared, e.fields)) + Foot(log)
  }

  // ----- derivation is transparent -----

  predicate Consistent(log: Logger) {
    log.prefix == Prefix(log.shared, log.fields)
  }

  function With(log: Logger, fs: seq<Field>): Logger {
    log.(fields := log.fields + fs, prefix := Prefix(log.shared, log.fields + fs))
  }

  lemma {:induction false} PrefixConcat(sh: Shared, a: seq<Field>, b: seq<Field>)
    ensures Prefix(sh, a + b) == Prefix(sh, a) + Prefix(sh, b)
  {
    hide FieldText;
    if a == [] {
      assert a + b == b;
    } else {
      PrefixConcat(sh, a[1..], b);
      assert (a + b)[1..] == a[1..] + b;
      Assoc(FieldText(sh, a[0]), Prefix(sh, a[1..]), Prefix(sh, b));
    }
  }

  lemma {:induction false} MiddleIsPrefix(log: Logger, fs: seq<Field>)
    requires Consistent(log)
    ensures Statics(log) + Prefix(log.shared, fs) == Prefix(log.shared, log.fields + fs)
  {
    hide Prefix;
    PrefixConcat(log.shared, log.fields, fs);
  }

  /** Logging on a logger derived twice gives the bytes of logging all the fields on the logger itself. */
  lemma WithIsTransparent(log: Logger, a: seq<Field>, b: seq<Field>, e: Event)
    requires Consistent(log)
    ensures Consistent(With(With(log, a), b))
    ensures Line(With(With(log, a), b), e) == Line(log, e.(fields := a + b + e.fields))
  {
    hide FieldText, Prefix, Statics, LevelFragment;
    var child := With(With(log, a), b);
    MiddleIsPrefix(child, e.fields);
    MiddleIsPrefix(log, a + b + e.fields);
    assert child.fields + e.fields == log.fields + (a + b + e.fields);
  }

  // ----- cached and fallback rendering -----

  /** Without colours the two prefixes are the same bytes. */
  lemma PrefixesAgree(sh: Shared, key: bytes, colour: bytes)
    requires !sh.colour
    ensures PrefixText(sh, key, colour) == FallbackText(sh, key, colour) == [SPACE] + (key + [EQUALS])
  {
    var body := key + [EQUALS];
    assert [] + [SPACE] + [] + body + ([] + []) == [SPACE] + body;
  }

  /** With colours they are the same once the colours are gone. */
  lemma PrefixErases(sh: Shared, key: bytes, colour: bytes)
    requires sh.colour && Clean(sh.palette) && Colour(colour) && NoEscape(key)
    ensures Erases(PrefixText(sh, key, colour), [SPACE] + (key + [EQUALS]))
    ensures Erases(FallbackText(sh, key, colour), [SPACE] + (key + [EQUALS]))
  {
    var r, k, body := sh.palette.reset, sh.palette.key, key + [EQUALS];
    TextErases([SPACE]);
    TextErases(body);
    ColourVanishes(r, [SPACE], [SPACE]);
    ColourVanishes(k, r + [SPACE], [SPACE]);
    ColourVanishes(k, [SPACE] + r, [SPACE]);
    ColoursJoin(r, colour);
    hide Erases, Colour;
    ErasesConcat(r + [SPACE] + k, [SPACE], body, body);
    ErasesConcat([SPACE] + r + k, [SPACE], body, body);
    ColourVanishes(r + colour, r + [SPACE] + k + body, [SPACE] + body);
    ColourVanishes(r + colour, [SPACE] + r + k + body, [SPACE] + body);
  }

  lemma ColoursJoin(a: bytes, b: bytes)
    requires Colour(a) && Colour(b)
    ensures Colour(a + b)
  {
    StripConcat(a, b);
  }
}
