/** Levels, fields, palettes and loggers: the values that the emitters render. */
module Events {
  import opened Bytes
  import JsonText
  import JsonString
  import ConsoleString
  import Ansi
  import Integers

  datatype Level = Trace | Debug | Info | Warn | Error | Fatal | Panic | NoLevel | Disabled

  /** `pslog_level_string` */
  function LevelText(l: Level): bytes {
    match l
    case Trace => [0x74, 0x72, 0x61, 0x63, 0x65]
    case Debug => [0x64, 0x65, 0x62, 0x75, 0x67]
    case Info => [0x69, 0x6e, 0x66, 0x6f]
    case Warn => [0x77, 0x61, 0x72, 0x6e]
    case Error => [0x65, 0x72, 0x72, 0x6f, 0x72]
    case Fatal => [0x66, 0x61, 0x74, 0x61, 0x6c]
    case Panic => [0x70, 0x61, 0x6e, 0x69, 0x63]
    case NoLevel => [0x6e, 0x6f, 0x6c, 0x65, 0x76, 0x65, 0x6c]
    case Disabled => [0x64, 0x69, 0x73, 0x61, 0x62, 0x6c, 0x65, 0x64]
  }

  /** `pslog_level_console_label` */
  function LevelLabel(l: Level): bytes {
    match l
    case Trace => [0x54, 0x52, 0x43]
    case Debug => [0x44, 0x42, 0x47]
    case Info => [0x49, 0x4e, 0x46]
    case Warn => [0x57, 0x52, 0x4e]
    case Error => [0x45, 0x52, 0x52]
    case Fatal => [0x46, 0x54, 0x4c]
    case Panic => [0x50, 0x4e, 0x43]
    case NoLevel => [0x2d, 0x2d, 0x2d]
    case Disabled => [0x49, 0x4e, 0x46]
  }

  /** The level whose prepared texts a level is rendered with: eight slots, `info` the default. */
  function Slot(l: Level): Level {
    if l == Disabled then Info else l
  }

  datatype Real = NaN | Infinite(negative: bool) | Finite(bits: nat)
  datatype Instant = Instant(seconds: int, nanoseconds: int, offsetMinutes: int)
  datatype Span = Span(seconds: int, nanoseconds: int)

  datatype Datum =
    | Null
    | Str(text: bytes, trusted: bool, simple: bool)
    | Signed(i: int)
    | Unsigned(u: nat)
    | Double(d: Real)
    | Bool(b: bool)
    | Pointer(address: nat)
    | Blob(data: bytes)
    | Time(t: Instant)
    | Duration(s: Span)
    | Errno(code: int)

  datatype FieldType =
    | NullType | StringType | SignedType | UnsignedType | DoubleType | BoolType | PointerType | BytesType
    | TimeType | DurationType | ErrnoType

  function TypeOf(v: Datum): FieldType {
    match v
    case Null => NullType
    case Str(_, _, _) => StringType
    case Signed(_) => SignedType
    case Unsigned(_) => UnsignedType
    case Double(_) => DoubleType
    case Bool(_) => BoolType
    case Pointer(_) => PointerType
    case Blob(_) => BytesType
    case Time(_) => TimeType
    case Duration(_) => DurationType
    case Errno(_) => ErrnoType
  }

  datatype Field = Field(key: bytes, trustedKey: bool, value: Datum)

  /** What every field constructor guarantees about its cached flags. */
  predicate WellMade(f: Field) {
    (f.trustedKey ==> JsonString.Trusted(f.key)) &&
    (f.value.Str? ==>
      (f.value.trusted ==> JsonString.Trusted(f.value.text)) &&
      (f.value.simple ==> ConsoleString.Simple(f.value.text))) &&
    (f.value.Signed? ==> Integers.I64_MIN <= f.value.i <= Integers.I64_MAX) &&
    (f.value.Unsigned? ==> f.value.u <= Integers.U64_MAX)
  }

  predicate AllWellMade(fs: seq<Field>) {
    forall i :: 0 <= i < |fs| ==> WellMade(fs[i])
  }

  predicate Plain(v: Datum) {
    !v.Str? && (v.Signed? ==> Integers.I64_MIN <= v.i <= Integers.I64_MAX) &&
    (v.Unsigned? ==> v.u <= Integers.U64_MAX)
  }

  /** `pslog_null`, `pslog_i64`, `pslog_bool` and the other constructors without text. */
  function MakeField(key: bytes, value: Datum): (f: Field)
    requires Plain(value)
    ensures WellMade(f) && f.key == key && f.value == value
    ensures f.trustedKey <==> JsonString.AsciiTrusted(key)
  {
    var trusted := JsonString.AsciiTrusted(key);
    if trusted then
      JsonString.AsciiTrustedIsTrusted(key);
      Field(key, true, value)
    else Field(key, false, value)
  }

  /** `pslog_str` */
  function StrField(key: bytes, text: bytes): (f: Field)
    ensures WellMade(f) && f.key == key && f.value.Str? && f.value.text == text
    ensures (f.trustedKey <==> JsonString.AsciiTrusted(key)) && (f.value.trusted <==> JsonString.AsciiTrusted(text))
  {
    var k, t := JsonString.AsciiTrusted(key), JsonString.AsciiTrusted(text);
    assert k ==> JsonString.Trusted(key) by { if k { JsonString.AsciiTrustedIsTrusted(key); } }
    assert t ==> JsonString.Trusted(text) by { if t { JsonString.AsciiTrustedIsTrusted(text); } }
    Field(key, k, Str(text, t, false))
  }

  /** `pslog_trusted_str`: despite its name it checks, with the UTF-8 scan. */
  function TrustedStrField(key: bytes, text: bytes): (f: Field)
    ensures WellMade(f) && f.key == key && f.value.Str? && f.value.text == text
    ensures (f.trustedKey <==> JsonString.Trusted(key)) && (f.value.trusted <==> JsonString.Trusted(text))
  {
    Field(key, JsonString.Trusted(key), Str(text, JsonString.Trusted(text), false))
  }

  /** What the format compiler guarantees about a field it makes. */
  predicate KvMade(f: Field) {
    f.key != [] && JsonString.Plain(f.key) && (f.value.Str? || Plain(f.value))
  }

  predicate AllKvMade(fs: seq<Field>) {
    forall i :: 0 <= i < |fs| ==> KvMade(fs[i])
  }

  /** The field that a caller would have constructed for the same key and value. */
  function Constructed(f: Field): Field
    requires KvMade(f)
  {
    if f.value.Str? then StrField(f.key, f.value.text) else MakeField(f.key, f.value)
  }

  function AllConstructed(fs: seq<Field>): (gs: seq<Field>)
    requires AllKvMade(fs)
    ensures AllWellMade(gs)
  {
    if fs == [] then [] else [Constructed(fs[0])] + AllConstructed(fs[1..])
  }

  /** Texts that the C library makes: `%.17g`, `%p`, `strerror_r`, `strftime` and durations. */
  datatype Platform = Platform(
    double: nat -> bytes,
    pointer: nat -> bytes,
    errno: int -> bytes,
    time: Instant -> bytes,
    duration: Span -> bytes)

  ghost predicate Sound(p: Platform) {
    (forall b :: JsonText.IsNumber(p.double(b))) &&
    (forall a :: JsonString.Trusted(p.pointer(a))) &&
    (forall t :: JsonString.Trusted(p.time(t))) &&
    (forall s :: JsonString.Trusted(p.duration(s)))
  }

  datatype Palette = Palette(
    key: bytes, str: bytes, number: bytes, boolean: bytes, nullValue: bytes,
    trace: bytes, debug: bytes, info: bytes, warn: bytes, error: bytes, fatal: bytes, panic: bytes,
    timestamp: bytes, message: bytes, messageKey: bytes, reset: bytes)

  /** Every entry is made of complete colour sequences. */
  predicate Clean(p: Palette) {
    Ansi.Colour(p.key) && Ansi.Colour(p.str) && Ansi.Colour(p.number) && Ansi.Colour(p.boolean) &&
    Ansi.Colour(p.nullValue) && Ansi.Colour(p.trace) && Ansi.Colour(p.debug) && Ansi.Colour(p.info) &&
    Ansi.Colour(p.warn) && Ansi.Colour(p.error) && Ansi.Colour(p.fatal) && Ansi.Colour(p.panic) &&
    Ansi.Colour(p.timestamp) && Ansi.Colour(p.message) && Ansi.Colour(p.messageKey) && Ansi.Colour(p.reset)
  }

  /** `pslog_level_color` */
  function LevelColour(p: Palette, l: Level): bytes {
    match l
    case Trace => p.trace
    case Debug => p.debug
    case Info => p.info
    case Warn => p.warn
    case Error => p.error
    case Fatal => p.fatal
    case Panic => p.panic
    case NoLevel => p.nullValue
    case Disabled => p.info
  }

  /** The settings that loggers of one tree share. */
  datatype Shared = Shared(
    json: bool,
    colour: bool,
    palette: Palette,
    verbose: bool,
    nonFiniteAsNull: bool,
    timestamps: bool,
    platform: Platform)

  /** A colour, where colours are on. */
  function Paint(sh: Shared, colour: bytes): bytes {
    if sh.colour then colour else []
  }

  /** The same settings without colours. */
  function Plainly(sh: Shared): Shared {
    sh.(colour := false)
  }

  const LOGLEVEL: bytes := [0x6c, 0x6f, 0x67, 0x6c, 0x65, 0x76, 0x65, 0x6c]

  /** A logger: its static fields and the text precomputed for them. */
  datatype Logger = Logger(
    shared: Shared,
    fields: seq<Field>,
    prefix: bytes,
    minLevel: Level,
    includeLevel: bool)

  /** One call: `stamp` is the timestamp text the call obtains. */
  datatype Event = Event(stamp: bytes, level: Level, msg: bytes, fields: seq<Field>)

  /** A JSON logger without fields and timestamps, on a platform and a palette that say as little as they may. */
  function BareLogger(colour: bool, minLevel: Level, includeLevel: bool): Logger {
    var none: bytes := [];
    var palette := Palette(none, none, none, none, none, none, none, none, none, none, none, none, none, none, none, none);
    var platform := Platform(_ => [ZERO], _ => none, _ => none, _ => none, _ => none);
    Logger(Shared(true, colour, palette, false, false, false, platform), [], [], minLevel, includeLevel)
  }

  lemma EmptyIsTrusted()
    ensures JsonString.Trusted([]) && JsonText.IsNumber([ZERO]) && Ansi.Colour([])
  {
  }

  lemma BareIsSound(colour: bool, minLevel: Level, includeLevel: bool)
    ensures Sound(BareLogger(colour, minLevel, includeLevel).shared.platform)
    ensures Clean(BareLogger(colour, minLevel, includeLevel).shared.palette)
  {
    EmptyIsTrusted();
    hide JsonString.Trusted, JsonText.IsNumber, Ansi.Colour;
  }

  function Hex(data: bytes): bytes {
    if data == [] then [] else HexPair(data[0]) + Hex(data[1..])
  }

  lemma {:induction false} HexIsTrusted(data: bytes)
    ensures JsonString.AsciiTrusted(Hex(data))
  {
    if data == [] {
    } else {
      HexIsTrusted(data[1..]);
      assert forall n: int | 0 <= n < 16 :: HexDigit(n) < 0x80 && JsonString.PlainByte(HexDigit(n));
    }
  }

  /** Two hexadecimal digits a byte, or nothing. */
  function Unhex(t: bytes): Option<bytes> {
    if t == [] then Some([])
    else if |t| < 2 || JsonText.HexValue(t[0]) < 0 || JsonText.HexValue(t[1]) < 0 then None
    else
      match Unhex(t[2..])
      case None => None
      case Some(rest) => Some([JsonText.HexValue(t[0]) * 16 + JsonText.HexValue(t[1])] + rest)
  }

  lemma {:induction false} UnhexPair(b: byte, rest: bytes)
    ensures Unhex(HexPair(b) + rest) ==
            match Unhex(rest)
            case None => None
            case Some(data) => Some([b] + data)
  {
    var t := HexPair(b) + rest;
    assert t[2..] == rest && t[0] == HexDigit(b / 16) && t[1] == HexDigit(b % 16);
    assert JsonText.HexValue(HexDigit(b / 16)) == b / 16;
    assert JsonText.HexValue(HexDigit(b % 16)) == b % 16;
  }

  /** Every block of bytes can be had back from its hexadecimal text. */
  lemma {:induction false} HexRoundTrip(data: bytes)
    ensures Unhex(Hex(data)) == Some(data)
  {
    if data == [] {
    } else {
      hide Unhex, HexPair;
      HexRoundTrip(data[1..]);
      UnhexPair(data[0], Hex(data[1..]));
      assert data == [data[0]] + data[1..];
    }
  }
}
