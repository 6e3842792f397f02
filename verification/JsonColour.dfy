/**
 Colour erasure for JSON lines: removing the colour sequences from a coloured
 line gives the plain line, except for one level field.
 */
module JsonColour {
  import opened Bytes
  import opened Events
  import opened JsonLine
  import opened Ansi
  import JsonText
  import JsonReads
  import JsonString
  import Integers

  /** The same logger without colours, its precomputed text made anew. */
  function PlainLogger(log: Logger): Logger {
    log.(shared := Plainly(log.shared), prefix := Prefix(Plainly(log.shared), log.fields))
  }

  /**
   The level field of a disabled threshold, where its prepared text fits: the
   slot it is taken from is that of `info`.
   */
  predicate Lapse(log: Logger) {
    log.includeLevel && log.minLevel == Disabled && Prepared(log.shared, LOGLEVEL, Disabled)
  }

  // ----- pieces -----

  lemma QuotedNoEscape(body: bytes)
    requires NoEscape(body)
    ensures NoEscape([QUOTE] + body + [QUOTE]) && NoEscape([QUOTE] + body + [QUOTE] + [COLON])
  {
  }

  lemma QuoteNoEscape(s: bytes)
    requires JsonString.Plain(s)
    ensures NoEscape(JsonString.Quote(s)) && NoEscape(JsonString.Quote(s) + [COLON])
  {
    QuotedNoEscape(s);
  }

  lemma EncodeNoEscape(s: bytes)
    ensures NoEscape(JsonString.Encode(s)) && NoEscape(JsonString.Encode(s) + [COLON])
    ensures NoEscape(JsonString.MaybeTrusted(s))
  {
    JsonString.EscapeHasNoControls(s);
    QuotedNoEscape(JsonString.Escape(s));
    if JsonString.AsciiTrusted(s) || JsonString.Trusted(s) {
      QuoteNoEscape(s);
    }
  }

  lemma NonFiniteSame(d: Real)
    requires !d.Finite?
    ensures JsonString.MaybeTrusted(NonFinite(d)) == JsonString.Encode(NonFinite(d))
  {
    var t := NonFinite(d);
    assert JsonString.AsciiTrusted(t) && BRACKET !in t;
    JsonString.AsciiTrustedIsTrusted(t);
    JsonString.PathsAgree(t);
  }

  lemma NumberNoEscape(t: bytes)
    requires JsonText.IsNumber(t)
    ensures NoEscape(t)
  {
    JsonText.NumberIsBytes(t);
  }

  lemma {:induction false} UnsignedNoEscape(u: nat)
    ensures NoEscape(Integers.Decimal(u))
  {
    Integers.SignedIsNumber(u);
    NumberNoEscape(Integers.SignedText(u));
  }

  /** The text of a value does not depend on colours and holds no escape byte. */
  lemma DatumSame(sh: Shared, v: Datum)
    requires Sound(sh.platform) && (v.Str? && v.trusted ==> JsonString.Trusted(v.text))
    ensures DatumText(sh, v) == DatumText(Plainly(sh), v) && NoEscape(DatumText(sh, v))
  {
    hide JsonString.MaybeTrusted, JsonString.Encode, JsonString.Quote, JsonText.IsNumber, Integers.SignedText, Hex;
    match v
    case Null =>
    case Str(text, trusted, _) =>
      EncodeNoEscape(text);
      if trusted {
        QuoteNoEscape(text);
      }
    case Signed(i) =>
      Integers.SignedIsNumber(i);
      NumberNoEscape(Integers.SignedText(i));
    case Unsigned(u) =>
      UnsignedNoEscape(u);
    case Double(d) =>
      if d.Finite? {
        NumberNoEscape(sh.platform.double(d.bits));
      } else {
        NonFiniteSame(d);
        EncodeNoEscape(NonFinite(d));
      }
    case Bool(_) =>
    case Pointer(a) => QuoteNoEscape(sh.platform.pointer(a));
    case Blob(data) =>
      HexIsTrusted(data);
      QuoteNoEscape(Hex(data));
    case Time(t) => QuoteNoEscape(sh.platform.time(t));
    case Duration(s) => QuoteNoEscape(sh.platform.duration(s));
    case Errno(code) => EncodeNoEscape(sh.platform.errno(code));
  }

  lemma KvDatumSame(sh: Shared, v: Datum)
    requires Sound(sh.platform)
    ensures KvDatum(sh, v) == KvDatum(Plainly(sh), v) && NoEscape(KvDatum(sh, v))
  {
    if v.Str? {
      EncodeNoEscape(v.text);
    } else {
      DatumSame(sh, v);
      if v.Double? && !v.d.Finite? {
        EncodeNoEscape(NonFinite(v.d));
      }
    }
  }

  /** Any member: a coloured key and a coloured value. */
  lemma MemberErases(k: bytes, key: bytes, c: bytes, value: bytes, r: bytes)
    requires Colour(k) && Colour(c) && Colour(r) && NoEscape(key) && NoEscape(value)
    ensures Erases(k + key + (c + value + r), [] + key + ([] + value + []))
  {
    TextErases(key);
    ColourVanishes(k, key, key);
    Wrapped(c, value, r);
    hide Erases, Colour;
    ErasesConcat(k + key, key, c + value + r, value);
    assert [] + key == key && [] + value + [] == value;
  }

  lemma FieldErases(sh: Shared, f: Field)
    requires sh.colour && Clean(sh.palette) && Sound(sh.platform) && WellMade(f)
    ensures Erases(FieldMember(sh, f), FieldMember(Plainly(sh), f))
  {
    DatumSame(sh, f.value);
    EncodeNoEscape(f.key);
    if f.trustedKey {
      QuoteNoEscape(f.key);
    }
    ColoursClean(sh, f.value);
    hide DatumText, DatumColour, Clean, Colour, Erases, NoEscape, Key, WellMade, Sound;
    MemberErases(sh.palette.key, Key(f) + [COLON], DatumColour(sh, f.value), DatumText(sh, f.value), sh.palette.reset);
  }

  lemma ColoursClean(sh: Shared, v: Datum)
    requires Clean(sh.palette)
    ensures Colour(DatumColour(sh, v)) && Colour(sh.palette.key) && Colour(sh.palette.reset)
  {
    hide Colour;
  }

  lemma KvErases(sh: Shared, f: Field)
    requires sh.colour && Clean(sh.palette) && Sound(sh.platform) && JsonString.Plain(f.key)
    ensures Erases(KvMember(sh, f), KvMember(Plainly(sh), f))
  {
    KvDatumSame(sh, f.value);
    QuoteNoEscape(f.key);
    ColoursClean(sh, f.value);
    hide KvDatum, DatumColour, Clean, Colour, Erases, NoEscape, Sound;
    MemberErases(sh.palette.key, JsonString.Quote(f.key) + [COLON], DatumColour(sh, f.value), KvDatum(sh, f.value),
                 sh.palette.reset);
  }

  lemma CommaErases(c: bytes, p: bytes)
    requires Erases(c, p)
    ensures Erases([COMMA] + c, [COMMA] + p)
  {
    TextErases([COMMA]);
    ErasesConcat([COMMA], [COMMA], c, p);
  }

  lemma EmptyErases()
    ensures Erases([], [])
  {
  }

  lemma {:induction false} PrefixErases(sh: Shared, fs: seq<Field>)
    requires sh.colour && Clean(sh.palette) && Sound(sh.platform) && AllWellMade(fs)
    ensures Erases(Prefix(sh, fs), Prefix(Plainly(sh), fs))
  {
    EmptyErases();
    hide Erases, FieldMember, Clean, Sound;
    if fs == [] {
    } else {
      PrefixErases(sh, fs[1..]);
      if fs[0].key != [] {
        FieldErases(sh, fs[0]);
        CommaErases(FieldMember(sh, fs[0]), FieldMember(Plainly(sh), fs[0]));
      }
      ErasesConcat(Piece(sh, fs[0]), Piece(Plainly(sh), fs[0]), Prefix(sh, fs[1..]), Prefix(Plainly(sh), fs[1..]));
    }
  }

  lemma {:induction false} KvSetErases(sh: Shared, fs: seq<Field>)
    requires sh.colour && Clean(sh.palette) && Sound(sh.platform) && AllKvMade(fs)
    ensures Erases(KvSet(sh, fs), KvSet(Plainly(sh), fs))
  {
    EmptyErases();
    hide Erases, KvMember, Clean, Sound;
    if fs == [] {
    } else {
      var p := Plainly(sh);
      KvSetErases(sh, fs[1..]);
      KvErases(sh, fs[0]);
      CommaErases(KvMember(sh, fs[0]), KvMember(p, fs[0]));
      ErasesConcat([COMMA] + KvMember(sh, fs[0]), [COMMA] + KvMember(p, fs[0]), KvSet(sh, fs[1..]), KvSet(p, fs[1..]));
    }
  }

  // ----- head and foot -----

  lemma LevelPieceErases(sh: Shared, key: bytes, l: Level)
    requires sh.colour && Clean(sh.palette) && JsonString.Plain(key)
    ensures Erases(LevelPiece(sh, key, l), LevelPiece(Plainly(sh), key, l))
  {
    JsonReads.LevelIsAscii(l);
    QuoteNoEscape(key);
    QuoteNoEscape(LevelText(l));
    assert Colour(LevelColour(sh.palette, l)) && Colour(sh.palette.key) && Colour(sh.palette.reset) by {
      hide Colour;
    }
    hide Colour, Clean, LevelColour, LevelText, NoEscape, Erases;
    MemberErases(sh.palette.key, JsonString.Quote(key) + [COLON], LevelColour(sh.palette, l),
                 JsonString.Quote(LevelText(l)), sh.palette.reset);
  }

  lemma WrappedPair(k: bytes, key: bytes, c: bytes, value: bytes, r: bytes)
    requires Colour(k) && Colour(c) && Colour(r) && NoEscape(key) && NoEscape(value)
    ensures Erases(k + key + r + (c + value + r), [] + key + [] + ([] + value + []))
  {
    Wrapped(k, key, r);
    Wrapped(c, value, r);
    hide Erases, Colour;
    ErasesConcat(k + key + r, key, c + value + r, value);
    assert [] + key + [] == key && [] + value + [] == value;
  }

  lemma StampErases(sh: Shared, stamp: bytes)
    requires sh.colour && Clean(sh.palette) && NoEscape(stamp)
    ensures Erases(StampMember(sh, stamp), StampMember(Plainly(sh), stamp))
  {
    var key := JsonString.Quote(StampKey(sh)) + [COLON];
    var value := JsonString.Quote(stamp);
    QuotedNoEscape(stamp);
    QuoteNoEscape(StampKey(sh));
    hide JsonString.Quote, NoEscape, Erases, Colour;
    WrappedPair(sh.palette.key, key, sh.palette.timestamp, value, sh.palette.reset);
  }

  lemma MessageErases(sh: Shared, msg: bytes)
    requires sh.colour && Clean(sh.palette)
    ensures Erases(MessageMember(sh, msg), MessageMember(Plainly(sh), msg))
  {
    EncodeNoEscape(msg);
    QuoteNoEscape(MessageKey(sh));
    MemberErases(sh.palette.messageKey, JsonString.Quote(MessageKey(sh)) + [COLON], sh.palette.message,
                 JsonString.MaybeTrusted(msg), sh.palette.reset);
  }

  lemma LevelErases(sh: Shared, key: bytes, l: Level)
    requires sh.colour && Clean(sh.palette) && JsonString.Plain(key)
    ensures Erases(LevelMember(sh, key, l), LevelMember(Plainly(sh), key, if Prepared(sh, key, l) then Slot(l) else l))
  {
    hide LevelPiece, Erases, Clean;
    LevelPieceErases(sh, key, if Prepared(sh, key, l) then Slot(l) else l);
  }

  lemma FixedKeys(sh: Shared)
    ensures JsonString.Plain(LevelKey(sh)) && JsonString.Plain(LOGLEVEL)
  {
  }

  lemma StampPartErases(sh: Shared, e: Event)
    requires sh.colour && Clean(sh.palette) && (sh.timestamps ==> NoEscape(e.stamp))
    ensures Erases(if sh.timestamps then StampMember(sh, e.stamp) + [COMMA] else [],
                   if sh.timestamps then StampMember(Plainly(sh), e.stamp) + [COMMA] else [])
  {
    EmptyErases();
    TextErases([COMMA]);
    hide Erases, StampMember, Clean;
    if sh.timestamps {
      StampErases(sh, e.stamp);
      ErasesConcat(StampMember(sh, e.stamp), StampMember(Plainly(sh), e.stamp), [COMMA], [COMMA]);
    }
  }

  lemma MessagePartErases(sh: Shared, e: Event)
    requires sh.colour && Clean(sh.palette)
    ensures Erases(if e.msg == [] then [] else [COMMA] + MessageMember(sh, e.msg),
                   if e.msg == [] then [] else [COMMA] + MessageMember(Plainly(sh), e.msg))
  {
    EmptyErases();
    hide Erases, MessageMember, Clean;
    MessageErases(sh, e.msg);
    CommaErases(MessageMember(sh, e.msg), MessageMember(Plainly(sh), e.msg));
  }

  lemma HeadErases(sh: Shared, e: Event)
    requires sh.colour && Clean(sh.palette) && (sh.timestamps ==> NoEscape(e.stamp))
    ensures Erases(Head(sh, e), Head(Plainly(sh), e))
  {
    TextErases([JsonText.OPEN]);
    FixedKeys(sh);
    hide Erases, StampMember, LevelMember, MessageMember, Clean, Prepared;
    var p := Plainly(sh);
    StampPartErases(sh, e);
    var s0, s1 := if sh.timestamps then StampMember(sh, e.stamp) + [COMMA] else [],
                  if sh.timestamps then StampMember(p, e.stamp) + [COMMA] else [];
    LevelErases(sh, LevelKey(sh), Slot(e.level));
    var l0, l1 := LevelMember(sh, LevelKey(sh), Slot(e.level)), LevelMember(p, LevelKey(p), Slot(e.level));
    MessagePartErases(sh, e);
    var m0, m1 := if e.msg == [] then [] else [COMMA] + MessageMember(sh, e.msg),
                  if e.msg == [] then [] else [COMMA] + MessageMember(p, e.msg);
    ErasesConcat([JsonText.OPEN], [JsonText.OPEN], s0, s1);
    ErasesConcat([JsonText.OPEN] + s0, [JsonText.OPEN] + s1, l0, l1);
    ErasesConcat([JsonText.OPEN] + s0 + l0, [JsonText.OPEN] + s1 + l1, m0, m1);
  }

  /** What the foot of a coloured line leaves when its colours are gone. */
  function ErasedFoot(log: Logger): bytes {
    Foot(PlainLogger(if Lapse(log) then log.(minLevel := Info) else log))
  }

  lemma FootErases(log: Logger)
    requires log.shared.colour && Clean(log.shared.palette)
    ensures Erases(Foot(log), ErasedFoot(log))
  {
    EmptyErases();
    TextErases([JsonText.CLOSE]);
    TextErases([NL]);
    FixedKeys(log.shared);
    hide Erases, LevelMember, Clean, Prepared;
    var sh, p := log.shared, Plainly(log.shared);
    var l0, l1: bytes := [], [];
    if log.includeLevel {
      LevelErases(sh, LOGLEVEL, log.minLevel);
      var shown := if Lapse(log) then Info else log.minLevel;
      CommaErases(LevelMember(sh, LOGLEVEL, log.minLevel), LevelMember(p, LOGLEVEL, shown));
      l0, l1 := [COMMA] + LevelMember(sh, LOGLEVEL, log.minLevel), [COMMA] + LevelMember(p, LOGLEVEL, shown);
    }
    ErasesConcat(l0, l1, [JsonText.CLOSE], [JsonText.CLOSE]);
    ErasesConcat(l0 + [JsonText.CLOSE], l1 + [JsonText.CLOSE], [NL], [NL]);
  }

  lemma FootLength(log: Logger)
    ensures Lapse(log) ==> |ErasedFoot(log)| != |Foot(PlainLogger(log))|
    ensures !Lapse(log) ==> ErasedFoot(log) == Foot(PlainLogger(log))
  {
  }

  // ----- whole lines -----

  lemma StaticsErase(log: Logger)
    requires Consistent(log) && log.shared.colour && Clean(log.shared.palette) && Sound(log.shared.platform)
    requires AllWellMade(log.fields)
    ensures Erases(Statics(log), Statics(PlainLogger(log)))
  {
    hide Erases, Prefix;
    StaticsArePrefix(log);
    StaticsArePrefix(PlainLogger(log));
    PrefixErases(log.shared, log.fields);
  }

  lemma {:induction false} Whole(h0: bytes, h1: bytes, s0: bytes, s1: bytes, m0: bytes, m1: bytes,
                                 f0: bytes, f1: bytes, f2: bytes)
    requires Erases(h0, h1) && Erases(s0, s1) && Erases(m0, m1) && Erases(f0, f1)
    ensures f1 == f2 ==> Erases(h0 + (s0 + m0) + f0, h1 + (s1 + m1) + f2)
    ensures |f1| != |f2| ==> Strip(h0 + (s0 + m0) + f0) != h1 + (s1 + m1) + f2
  {
    ErasesConcat(s0, s1, m0, m1);
    ErasesConcat(h0, h1, s0 + m0, s1 + m1);
    ErasesConcat(h0 + (s0 + m0), h1 + (s1 + m1), f0, f1);
  }

  /**
   Erasing the colours of a line gives the plain line if and only if the level
   field is not that of a disabled threshold taken from its prepared text.
   */
  lemma ColourErasure(log: Logger, e: Event)
    requires Consistent(log) && log.shared.colour && Clean(log.shared.palette) && Sound(log.shared.platform)
    requires AllWellMade(log.fields) && AllWellMade(e.fields)
    requires log.shared.timestamps ==> NoEscape(e.stamp)
    ensures Strip(Line(log, e)) == Line(PlainLogger(log), e) <==> !Lapse(log)
    ensures !Lapse(log) ==> Erases(Line(log, e), Line(PlainLogger(log), e))
  {
    hide Head, Foot, Statics, FieldSet, Prefix, Clean, Sound, Erases, AllWellMade, ErasedFoot, Lapse;
    var sh, p, plain := log.shared, Plainly(log.shared), PlainLogger(log);
    HeadErases(sh, e);
    StaticsErase(log);
    PrefixErases(sh, e.fields);
    PrefixIsFieldSet(sh, e.fields);
    PrefixIsFieldSet(p, e.fields);
    FootErases(log);
    FootLength(log);
    Whole(Head(sh, e), Head(p, e), Statics(log), Statics(plain),
          FieldSet(sh, e.fields, false), FieldSet(p, e.fields, false), Foot(log), ErasedFoot(log), Foot(plain));
    StripOf(Line(log, e), Line(plain, e));
  }

  /** The same on the kvfmt path. */
  lemma KvColourErasure(log: Logger, e: Event)
    requires Consistent(log) && log.shared.colour && Clean(log.shared.palette) && Sound(log.shared.platform)
    requires AllWellMade(log.fields) && AllKvMade(e.fields)
    requires log.shared.timestamps ==> NoEscape(e.stamp)
    ensures Strip(KvLine(log, e)) == KvLine(PlainLogger(log), e) <==> !Lapse(log)
    ensures !Lapse(log) ==> Erases(KvLine(log, e), KvLine(PlainLogger(log), e))
  {
    hide Head, Foot, Statics, KvSet, Prefix, Clean, Sound, Erases, AllWellMade, ErasedFoot, Lapse;
    var sh, p, plain := log.shared, Plainly(log.shared), PlainLogger(log);
    HeadErases(sh, e);
    StaticsErase(log);
    KvSetErases(sh, e.fields);
    FootErases(log);
    FootLength(log);
    Whole(Head(sh, e), Head(p, e), Statics(log), Statics(plain),
          KvSet(sh, e.fields), KvSet(p, e.fields), Foot(log), ErasedFoot(log), Foot(plain));
    StripOf(KvLine(log, e), KvLine(plain, e));
  }

  lemma {:induction false} StripOf(c: bytes, p: bytes)
    ensures Erases(c, p) ==> Strip(c) == p
  {
  }

  // ----- the lapse is real -----

  /** A logger whose palette has no colours at all still shows the lapse. */
  function LapsedLogger(): Logger {
    BareLogger(true, Disabled, true)
  }

  lemma LapsedPrepared()
    ensures Prepared(LapsedLogger().shared, LOGLEVEL, Disabled)
  {
    var sh := LapsedLogger().shared;
    var key := JsonString.Quote(LOGLEVEL) + [COLON];
    var value := JsonString.Quote(LevelText(Info));
    assert |key| == 11 && |value| == 6;
    assert |LevelPiece(sh, LOGLEVEL, Info)| == |key| + |value|;
  }

  /** When the lapse occurs, in numbers: the prepared field has 128 bytes for its text and a terminator. */
  lemma LapseMeans(log: Logger)
    requires log.shared.colour
    ensures Lapse(log) <==>
            log.includeLevel && log.minLevel == Disabled &&
            |log.shared.palette.key| + 11 + |log.shared.palette.info| + 6 + |log.shared.palette.reset| < 128
  {
    var key := JsonString.Quote(LOGLEVEL) + [COLON];
    var value := JsonString.Quote(LevelText(Info));
    assert |key| == 11 && |value| == 6;
    assert |LevelPiece(log.shared, LOGLEVEL, Info)| ==
           |log.shared.palette.key| + |key| + (|log.shared.palette.info| + |value| + |log.shared.palette.reset|);
  }

  /** A fatal event on a disabled threshold with its level shown: coloured, it says `info`. */
  lemma LapseHappens()
    ensures var log, e := LapsedLogger(), Event([], Fatal, [], []);
            Consistent(log) && Clean(log.shared.palette) && Sound(log.shared.platform) &&
            Strip(Line(log, e)) != Line(PlainLogger(log), e)
  {
    var log, e := LapsedLogger(), Event([], Fatal, [], []);
    BareIsSound(true, Disabled, true);
    LapsedPrepared();
    assert Consistent(log);
    assert Lapse(log);
    hide Line, Lapse, Clean, Sound, LapsedLogger;
    ColourErasure(log, e);
  }
}
