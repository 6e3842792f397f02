/**
 Which colours a line wears. Erasure says that nothing else differs from the
 plain line; here is what was erased: the palette's entries, in order, by the
 kind of each value and by the level.
 */
module LineColours {
  import opened Bytes
  import opened Events
  import opened Ansi
  import ConsoleColour
  import ConsoleLine
  import ConsoleString
  import JsonColour
  import JsonLine
  import JsonReads
  import JsonString
  import JsonText
  import Utf8
  import Wording

  /** The colour of a level, by its name. */
  function LevelTint(p: Palette, name: string): bytes {
    if name == "trace" then p.trace
    else if name == "debug" then p.debug
    else if name == "info" then p.info
    else if name == "warn" then p.warn
    else if name == "error" then p.error
    else if name == "fatal" then p.fatal
    else if name == "panic" then p.panic
    else if name == "nolevel" then p.nullValue
    else p.info
  }

  /** In JSON a value is coloured by what it reads as, times and error texts aside. */
  function ValueTint(sh: Shared, v: Datum): bytes {
    if v.Time? then sh.palette.timestamp
    else if v.Errno? then sh.palette.error
    else
      match JsonReads.Meaning(sh, v)
      case Null => sh.palette.nullValue
      case Bool(_) => sh.palette.boolean
      case Number(_) => sh.palette.number
      case String(_) => sh.palette.str
  }

  /** On the console so, but addresses and all doubles are numbers. */
  function ConsoleTint(sh: Shared, v: Datum): bytes {
    if v.Pointer? || v.Double? then sh.palette.number else ValueTint(sh, v)
  }

  lemma TintsAre(sh: Shared, v: Datum)
    ensures JsonLine.DatumColour(sh, v) == ValueTint(sh, v) && ConsoleLine.DatumColour(sh, v) == ConsoleTint(sh, v)
  {
  }

  lemma LevelTintIs(p: Palette, l: Level)
    ensures LevelColour(p, l) == LevelTint(p, Wording.Name(l))
    ensures LevelColour(p, Slot(l)) == LevelTint(p, Wording.EventName(l)) == LevelTint(p, Wording.Name(l))
  {
  }

  // ----- JSON -----

  function MemberTint(key: bytes, value: bytes, reset: bytes): bytes {
    key + (value + reset)
  }

  function FieldsTint(sh: Shared, fs: seq<Field>): bytes {
    if fs == [] then []
    else
      (if fs[0].key == [] then [] else MemberTint(sh.palette.key, ValueTint(sh, fs[0].value), sh.palette.reset)) +
      FieldsTint(sh, fs[1..])
  }

  function HeadTint(sh: Shared, e: Event): bytes {
    var p := sh.palette;
    (if sh.timestamps then p.key + p.reset + (p.timestamp + p.reset) else []) +
    MemberTint(p.key, LevelTint(p, Wording.EventName(e.level)), p.reset) +
    (if e.msg == [] then [] else MemberTint(p.messageKey, p.message, p.reset))
  }

  function FootTint(log: Logger): bytes {
    var p := log.shared.palette;
    if log.includeLevel then MemberTint(p.key, LevelTint(p, Wording.Name(log.minLevel)), p.reset) else []
  }

  lemma NothingWears()
    ensures Wears([], []) && Wears([COMMA], []) && Wears([SPACE], []) && Wears([NL], [])
    ensures Wears([JsonText.OPEN], []) && Wears([JsonText.CLOSE], [])
  {
    TextWears([]);
    TextWears([COMMA]);
    TextWears([SPACE]);
    TextWears([NL]);
    TextWears([JsonText.OPEN]);
    TextWears([JsonText.CLOSE]);
  }

  /** Colours count, text around them does not. */
  lemma Beside(t: bytes, c: bytes, k: bytes)
    requires Wears(t, []) && Wears(c, k)
    ensures Wears(t + c, k) && Wears(c + t, k)
  {
    hide Wears;
    WearsConcat(t, [], c, k);
    WearsConcat(c, k, t, []);
    assert [] + k == k && k + [] == k;
  }

  lemma MemberWears(k: bytes, key: bytes, c: bytes, value: bytes, r: bytes)
    requires Colour(k) && Colour(c) && Colour(r) && NoEscape(key) && NoEscape(value)
    ensures Wears(k + key + (c + value + r), MemberTint(k, c, r))
  {
    ColourWears(k);
    ColourWears(c);
    ColourWears(r);
    TextWears(key);
    TextWears(value);
    hide Wears, Colour, NoEscape;
    Beside(key, k, k);
    Beside(value, c, c);
    WearsConcat(c + value, c, r, r);
    WearsConcat(k + key, k, c + value + r, c + r);
  }

  lemma StampWears(k: bytes, key: bytes, c: bytes, value: bytes, r: bytes)
    requires Colour(k) && Colour(c) && Colour(r) && NoEscape(key) && NoEscape(value)
    ensures Wears(k + key + r + (c + value + r), k + r + (c + r))
  {
    ColourWears(k);
    ColourWears(c);
    ColourWears(r);
    TextWears(key);
    TextWears(value);
    hide Wears, Colour, NoEscape;
    Beside(key, k, k);
    Beside(value, c, c);
    WearsConcat(k + key, k, r, r);
    WearsConcat(c + value, c, r, r);
    WearsConcat(k + key + r, k + r, c + value + r, c + r);
  }

  lemma FieldWears(sh: Shared, f: Field)
    requires sh.colour && Clean(sh.palette) && Sound(sh.platform) && WellMade(f)
    ensures Wears(JsonLine.FieldMember(sh, f), MemberTint(sh.palette.key, ValueTint(sh, f.value), sh.palette.reset))
  {
    JsonColour.DatumSame(sh, f.value);
    JsonColour.EncodeNoEscape(f.key);
    if f.trustedKey {
      JsonColour.QuoteNoEscape(f.key);
    }
    JsonColour.ColoursClean(sh, f.value);
    TintsAre(sh, f.value);
    hide JsonLine.DatumText, JsonLine.DatumColour, ValueTint, Clean, Colour, Wears, NoEscape, JsonLine.Key, WellMade, Sound;
    MemberWears(sh.palette.key, JsonLine.Key(f) + [COLON], JsonLine.DatumColour(sh, f.value),
                JsonLine.DatumText(sh, f.value), sh.palette.reset);
  }

  lemma KvWears(sh: Shared, f: Field)
    requires sh.colour && Clean(sh.palette) && Sound(sh.platform) && JsonString.Plain(f.key)
    ensures Wears(JsonLine.KvMember(sh, f), MemberTint(sh.palette.key, ValueTint(sh, f.value), sh.palette.reset))
  {
    JsonColour.KvDatumSame(sh, f.value);
    JsonColour.QuoteNoEscape(f.key);
    JsonColour.ColoursClean(sh, f.value);
    TintsAre(sh, f.value);
    hide JsonLine.KvDatum, JsonLine.DatumColour, ValueTint, Clean, Colour, Wears, NoEscape, Sound;
    MemberWears(sh.palette.key, JsonString.Quote(f.key) + [COLON], JsonLine.DatumColour(sh, f.value),
                JsonLine.KvDatum(sh, f.value), sh.palette.reset);
  }

  lemma {:induction false} PrefixWears(sh: Shared, fs: seq<Field>)
    requires sh.colour && Clean(sh.palette) && Sound(sh.platform) && AllWellMade(fs)
    ensures Wears(JsonLine.Prefix(sh, fs), FieldsTint(sh, fs))
  {
    NothingWears();
    hide Wears, JsonLine.FieldMember, Clean, Sound, ValueTint, MemberTint;
    if fs == [] {
    } else {
      PrefixWears(sh, fs[1..]);
      var tint: bytes := [];
      if fs[0].key != [] {
        tint := MemberTint(sh.palette.key, ValueTint(sh, fs[0].value), sh.palette.reset);
        FieldWears(sh, fs[0]);
        Beside([COMMA], JsonLine.FieldMember(sh, fs[0]), tint);
      }
      WearsConcat(JsonLine.Piece(sh, fs[0]), tint, JsonLine.Prefix(sh, fs[1..]), FieldsTint(sh, fs[1..]));
    }
  }

  lemma {:induction false} KvSetWears(sh: Shared, fs: seq<Field>)
    requires sh.colour && Clean(sh.palette) && Sound(sh.platform) && AllKvMade(fs)
    ensures Wears(JsonLine.KvSet(sh, fs), FieldsTint(sh, fs))
  {
    NothingWears();
    hide Wears, JsonLine.KvMember, Clean, Sound, ValueTint, MemberTint;
    if fs == [] {
    } else {
      KvSetWears(sh, fs[1..]);
      assert KvMade(fs[0]);
      var tint := MemberTint(sh.palette.key, ValueTint(sh, fs[0].value), sh.palette.reset);
      KvWears(sh, fs[0]);
      Beside([COMMA], JsonLine.KvMember(sh, fs[0]), tint);
      WearsConcat([COMMA] + JsonLine.KvMember(sh, fs[0]), tint, JsonLine.KvSet(sh, fs[1..]), FieldsTint(sh, fs[1..]));
    }
  }

  lemma LevelPieceWears(sh: Shared, key: bytes, l: Level)
    requires sh.colour && Clean(sh.palette) && JsonString.Plain(key)
    ensures Wears(JsonLine.LevelPiece(sh, key, l),
                  MemberTint(sh.palette.key, LevelTint(sh.palette, Wording.Name(l)), sh.palette.reset))
  {
    JsonReads.LevelIsAscii(l);
    JsonColour.QuoteNoEscape(key);
    JsonColour.QuoteNoEscape(LevelText(l));
    LevelTintIs(sh.palette, l);
    assert Colour(LevelColour(sh.palette, l)) && Colour(sh.palette.key) && Colour(sh.palette.reset) by {
      hide Colour;
    }
    hide Colour, Clean, LevelColour, LevelTint, LevelText, NoEscape, Wears;
    MemberWears(sh.palette.key, JsonString.Quote(key) + [COLON], LevelColour(sh.palette, l),
                JsonString.Quote(LevelText(l)), sh.palette.reset);
  }

  lemma LevelWears(sh: Shared, key: bytes, l: Level)
    requires sh.colour && Clean(sh.palette) && JsonString.Plain(key)
    ensures Wears(JsonLine.LevelMember(sh, key, l),
                  MemberTint(sh.palette.key, LevelTint(sh.palette, Wording.Name(l)), sh.palette.reset))
  {
    hide JsonLine.LevelPiece, Wears, Clean, JsonLine.Prepared, MemberTint;
    LevelPieceWears(sh, key, l);
    LevelPieceWears(sh, key, Slot(l));
    LevelTintIs(sh.palette, l);
  }

  lemma StampMemberWears(sh: Shared, stamp: bytes)
    requires sh.colour && Clean(sh.palette) && NoEscape(stamp)
    ensures Wears(JsonLine.StampMember(sh, stamp),
                  sh.palette.key + sh.palette.reset + (sh.palette.timestamp + sh.palette.reset))
  {
    JsonColour.QuotedNoEscape(stamp);
    JsonColour.QuoteNoEscape(JsonLine.StampKey(sh));
    hide JsonString.Quote, NoEscape, Wears, Colour;
    StampWears(sh.palette.key, JsonString.Quote(JsonLine.StampKey(sh)) + [COLON], sh.palette.timestamp,
               JsonString.Quote(stamp), sh.palette.reset);
  }

  lemma MessageWears(sh: Shared, msg: bytes)
    requires sh.colour && Clean(sh.palette)
    ensures Wears(JsonLine.MessageMember(sh, msg), MemberTint(sh.palette.messageKey, sh.palette.message, sh.palette.reset))
  {
    JsonColour.EncodeNoEscape(msg);
    JsonColour.QuoteNoEscape(JsonLine.MessageKey(sh));
    hide JsonString.MaybeTrusted, JsonString.Quote, NoEscape, Wears, Colour;
    MemberWears(sh.palette.messageKey, JsonString.Quote(JsonLine.MessageKey(sh)) + [COLON], sh.palette.message,
                JsonString.MaybeTrusted(msg), sh.palette.reset);
  }

  lemma HeadWears(sh: Shared, e: Event)
    requires sh.colour && Clean(sh.palette) && (sh.timestamps ==> NoEscape(e.stamp))
    ensures Wears(JsonLine.Head(sh, e), HeadTint(sh, e))
  {
    NothingWears();
    JsonColour.FixedKeys(sh);
    LevelTintIs(sh.palette, e.level);
    hide Wears, JsonLine.StampMember, JsonLine.LevelMember, JsonLine.MessageMember, Clean, MemberTint, LevelTint;
    var p := sh.palette;
    var s, sk: bytes := [], [];
    if sh.timestamps {
      StampMemberWears(sh, e.stamp);
      s, sk := JsonLine.StampMember(sh, e.stamp) + [COMMA], p.key + p.reset + (p.timestamp + p.reset);
      Beside([COMMA], JsonLine.StampMember(sh, e.stamp), sk);
    }
    var l, lk := JsonLine.LevelMember(sh, JsonLine.LevelKey(sh), Slot(e.level)),
                 MemberTint(p.key, LevelTint(p, Wording.EventName(e.level)), p.reset);
    SlotTint(p, e.level);
    LevelWears(sh, JsonLine.LevelKey(sh), Slot(e.level));
    var m, mk: bytes := [], [];
    if e.msg != [] {
      MessageWears(sh, e.msg);
      m, mk := [COMMA] + JsonLine.MessageMember(sh, e.msg), MemberTint(p.messageKey, p.message, p.reset);
      Beside([COMMA], JsonLine.MessageMember(sh, e.msg), mk);
    }
    Beside([JsonText.OPEN], s, sk);
    WearsConcat([JsonText.OPEN] + s, sk, l, lk);
    WearsConcat([JsonText.OPEN] + s + l, sk + lk, m, mk);
  }

  lemma SlotTint(p: Palette, l: Level)
    ensures LevelTint(p, Wording.Name(Slot(l))) == LevelTint(p, Wording.EventName(l))
  {
  }

  lemma FootWears(log: Logger)
    requires log.shared.colour && Clean(log.shared.palette)
    ensures Wears(JsonLine.Foot(log), FootTint(log))
  {
    NothingWears();
    JsonColour.FixedKeys(log.shared);
    hide Wears, JsonLine.LevelMember, Clean, MemberTint, LevelTint;
    var l: bytes := [];
    if log.includeLevel {
      LevelWears(log.shared, LOGLEVEL, log.minLevel);
      l := [COMMA] + JsonLine.LevelMember(log.shared, LOGLEVEL, log.minLevel);
      Beside([COMMA], JsonLine.LevelMember(log.shared, LOGLEVEL, log.minLevel), FootTint(log));
    }
    Beside([JsonText.CLOSE], l, FootTint(log));
    Beside([NL], l + [JsonText.CLOSE], FootTint(log));
  }

  /** The colours of a line: head, static fields, call fields and foot, each entry of the palette in its place. */
  function LineTint(log: Logger, e: Event): bytes {
    HeadTint(log.shared, e) + (FieldsTint(log.shared, log.fields) + FieldsTint(log.shared, e.fields)) + FootTint(log)
  }

  lemma Joined(h: bytes, hk: bytes, s: bytes, sk: bytes, m: bytes, mk: bytes, f: bytes, fk: bytes)
    requires Wears(h, hk) && Wears(s, sk) && Wears(m, mk) && Wears(f, fk)
    ensures Wears(h + (s + m) + f, hk + (sk + mk) + fk)
  {
    hide Wears;
    WearsConcat(s, sk, m, mk);
    WearsConcat(h, hk, s + m, sk + mk);
    WearsConcat(h + (s + m), hk + (sk + mk), f, fk);
  }

  lemma JsonWears(log: Logger, e: Event)
    requires JsonLine.Consistent(log) && log.shared.colour && Clean(log.shared.palette) && Sound(log.shared.platform)
    requires AllWellMade(log.fields) && (log.shared.timestamps ==> NoEscape(e.stamp))
    ensures AllWellMade(e.fields) ==> Wears(JsonLine.Line(log, e), LineTint(log, e))
    ensures AllKvMade(e.fields) ==> Wears(JsonLine.KvLine(log, e), LineTint(log, e))
  {
    hide Wears, JsonLine.Head, JsonLine.Foot, JsonLine.Statics, JsonLine.FieldSet, JsonLine.KvSet, JsonLine.Prefix;
    hide FieldsTint, HeadTint, FootTint, Clean, Sound, AllWellMade, AllKvMade;
    var sh := log.shared;
    HeadWears(sh, e);
    FootWears(log);
    JsonLine.StaticsArePrefix(log);
    PrefixWears(sh, log.fields);
    if AllWellMade(e.fields) {
      PrefixWears(sh, e.fields);
      JsonLine.PrefixIsFieldSet(sh, e.fields);
      Joined(JsonLine.Head(sh, e), HeadTint(sh, e), JsonLine.Statics(log), FieldsTint(sh, log.fields),
             JsonLine.FieldSet(sh, e.fields, false), FieldsTint(sh, e.fields), JsonLine.Foot(log), FootTint(log));
    }
    if AllKvMade(e.fields) {
      KvSetWears(sh, e.fields);
      Joined(JsonLine.Head(sh, e), HeadTint(sh, e), JsonLine.Statics(log), FieldsTint(sh, log.fields),
             JsonLine.KvSet(sh, e.fields), FieldsTint(sh, e.fields), JsonLine.Foot(log), FootTint(log));
    }
  }

  // ----- the console -----

  function ConsoleFieldTint(p: Palette, value: bytes): bytes {
    p.reset + p.key + (p.reset + value)
  }

  function ConsoleFieldsTint(sh: Shared, fs: seq<Field>): bytes {
    if fs == [] then []
    else
      (if fs[0].key == [] then [] else ConsoleFieldTint(sh.palette, ConsoleTint(sh, fs[0].value))) +
      ConsoleFieldsTint(sh, fs[1..])
  }

  /** The label is coloured if its level has a colour and the prepared text has room for it. */
  function LabelTint(p: Palette, l: Level): bytes {
    var c := LevelTint(p, Wording.EventName(l));
    if c != [] && 3 + |c| + |p.reset| < 64 then c + p.reset else []
  }

  function ConsoleHeadTint(sh: Shared, e: Event): bytes {
    (if sh.timestamps then sh.palette.timestamp else []) + LabelTint(sh.palette, e.level) +
    (if e.msg == [] then [] else sh.palette.message)
  }

  function ConsoleFootTint(log: Logger): bytes {
    var p := log.shared.palette;
    (if log.includeLevel then ConsoleFieldTint(p, p.str) else []) + p.reset
  }

  function ConsoleLineTint(log: Logger, e: Event): bytes {
    ConsoleHeadTint(log.shared, e) +
    (ConsoleFieldsTint(log.shared, log.fields) + ConsoleFieldsTint(log.shared, e.fields)) + ConsoleFootTint(log)
  }

  /** The prefix of a field, cached or not. */
  lemma ConsolePrefixWears(sh: Shared, key: bytes, c: bytes)
    requires sh.colour && Clean(sh.palette) && Colour(c) && NoEscape(key)
    ensures Wears(ConsoleLine.PrefixText(sh, key, c), ConsoleFieldTint(sh.palette, c))
    ensures Wears(ConsoleLine.FallbackText(sh, key, c), ConsoleFieldTint(sh.palette, c))
  {
    var r, k, body := sh.palette.reset, sh.palette.key, key + [EQUALS];
    NothingWears();
    TextWears(body);
    ColourWears(r);
    ColourWears(k);
    ColourWears(c);
    hide Wears, Colour, NoEscape, Clean;
    Beside([SPACE], r, r);
    WearsConcat(r + [SPACE], r, k, k);
    WearsConcat([SPACE] + r, r, k, k);
    Beside(body, r + [SPACE] + k, r + k);
    Beside(body, [SPACE] + r + k, r + k);
    WearsConcat(r, r, c, c);
    WearsConcat(r + [SPACE] + k + body, r + k, r + c, r + c);
    WearsConcat([SPACE] + r + k + body, r + k, r + c, r + c);
  }

  lemma ConsoleFieldWears(sh: Shared, f: Field)
    requires sh.colour && Clean(sh.palette) && Sound(sh.platform) && WellMade(f) && NoEscape(f.key) && f.key != []
    ensures Wears(ConsoleLine.FieldText(sh, f), ConsoleFieldTint(sh.palette, ConsoleTint(sh, f.value)))
  {
    ConsoleColour.DatumNoEscape(sh, f.value);
    TextWears(ConsoleLine.DatumText(sh, f.value));
    ConsoleColour.ColoursClean(sh, f.value);
    TintsAre(sh, f.value);
    hide ConsoleLine.DatumColour, Clean, Colour, Wears, NoEscape, Sound, WellMade, ConsoleLine.PrefixText;
    hide ConsoleLine.FallbackText, ConsoleFieldTint, ConsoleTint;
    var c := ConsoleLine.DatumColour(sh, f.value);
    ConsolePrefixWears(sh, f.key, c);
    var front := if ConsoleLine.Cacheable(sh, f.key, c) then ConsoleLine.PrefixText(sh, f.key, c)
                 else ConsoleLine.FallbackText(sh, f.key, c);
    Beside(ConsoleLine.DatumText(sh, f.value), front, ConsoleFieldTint(sh.palette, c));
  }

  lemma {:induction false} ConsoleFieldsWear(sh: Shared, fs: seq<Field>)
    requires sh.colour && Clean(sh.palette) && Sound(sh.platform) && AllWellMade(fs) && ConsoleColour.KeysNoEscape(fs)
    ensures Wears(ConsoleLine.Prefix(sh, fs), ConsoleFieldsTint(sh, fs))
  {
    NothingWears();
    hide Wears, ConsoleLine.FieldText, Clean, Sound, ConsoleTint, ConsoleFieldTint;
    if fs == [] {
    } else {
      ConsoleFieldsWear(sh, fs[1..]);
      var text, tint: bytes := ConsoleLine.FieldText(sh, fs[0]), [];
      if fs[0].key == [] {
        Keyless(sh, fs[0]);
      } else {
        tint := ConsoleFieldTint(sh.palette, ConsoleTint(sh, fs[0].value));
        ConsoleFieldWears(sh, fs[0]);
      }
      WearsConcat(text, tint, ConsoleLine.Prefix(sh, fs[1..]), ConsoleFieldsTint(sh, fs[1..]));
    }
  }

  lemma Keyless(sh: Shared, f: Field)
    requires f.key == []
    ensures ConsoleLine.FieldText(sh, f) == []
  {
  }

  lemma LabelWears(sh: Shared, l: Level)
    requires sh.colour && Clean(sh.palette)
    ensures Wears(ConsoleLine.LevelFragment(sh, Slot(l)), LabelTint(sh.palette, l))
  {
    var c, text, r := LevelColour(sh.palette, Slot(l)), LevelLabel(Slot(l)), sh.palette.reset;
    ConsoleColour.LabelNoEscape(Slot(l));
    LevelTintIs(sh.palette, l);
    assert |text| == 3;
    assert Colour(c) && Colour(r) by {
      hide Colour;
    }
    TextWears(text);
    ColourWears(c);
    ColourWears(r);
    hide Wears, Colour, Clean, LevelLabel, LevelColour, LevelTint;
    Beside(text, c, c);
    WearsConcat(c + text, c, r, r);
  }

  lemma ConsoleHeadWears(sh: Shared, e: Event)
    requires sh.colour && Clean(sh.palette) && (sh.timestamps ==> NoEscape(e.stamp))
    ensures Wears(ConsoleLine.Head(sh, e), ConsoleHeadTint(sh, e))
  {
    NothingWears();
    ConsoleColour.ColoursClean(sh, Null);
    ConsoleColour.ValueNoEscape(e.msg);
    LabelWears(sh, e.level);
    hide Wears, Colour, Clean, ConsoleLine.LevelFragment, LabelTint, ConsoleString.Message, NoEscape;
    var t, tk: bytes := [], [];
    if sh.timestamps {
      tk := sh.palette.timestamp;
      ColourWears(tk);
      TextWears(e.stamp);
      Beside(e.stamp, tk, tk);
      Beside([SPACE], tk + e.stamp, tk);
      t := tk + e.stamp + [SPACE];
    }
    var m, mk: bytes := [], [];
    if e.msg != [] {
      mk := sh.palette.message;
      ColourWears(mk);
      TextWears(ConsoleString.Message(e.msg));
      Beside([SPACE], mk, mk);
      Beside(ConsoleString.Message(e.msg), [SPACE] + mk, mk);
      m := [SPACE] + mk + ConsoleString.Message(e.msg);
    }
    WearsConcat(t, tk, ConsoleLine.LevelFragment(sh, Slot(e.level)), LabelTint(sh.palette, e.level));
    WearsConcat(t + ConsoleLine.LevelFragment(sh, Slot(e.level)), tk + LabelTint(sh.palette, e.level), m, mk);
  }

  lemma LevelFieldTint(sh: Shared, l: Level)
    ensures ConsoleTint(sh, ConsoleLine.LevelField(l).value) == sh.palette.str && ConsoleLine.LevelField(l).key != []
  {
    hide LevelText, Utf8.CodePoints;
  }

  lemma ConsoleFootWears(log: Logger)
    requires log.shared.colour && Clean(log.shared.palette) && Sound(log.shared.platform)
    ensures Wears(ConsoleLine.Foot(log), ConsoleFootTint(log))
  {
    hide Wears, Colour, Clean, Sound, WellMade, ConsoleLine.FieldText, ConsoleLine.LevelField, ConsoleFieldTint, ConsoleTint;
    hide NoEscape;
    var sh, f := log.shared, ConsoleLine.LevelField(log.minLevel);
    NothingWears();
    ConsoleColour.ColoursClean(sh, Null);
    ConsoleColour.LevelFieldMade(log.minLevel);
    LevelFieldTint(sh, log.minLevel);
    ColourWears(sh.palette.reset);
    var l, lk: bytes := [], [];
    if log.includeLevel {
      ConsoleFieldWears(sh, f);
      l, lk := ConsoleLine.FieldText(sh, f), ConsoleFieldTint(sh.palette, sh.palette.str);
    }
    WearsConcat(l, lk, sh.palette.reset, sh.palette.reset);
    Beside([NL], l + sh.palette.reset, lk + sh.palette.reset);
  }

  /** A console line wears the palette's entries in this order and nothing else. */
  lemma ConsoleWears(log: Logger, e: Event)
    requires ConsoleLine.Consistent(log) && log.shared.colour && Clean(log.shared.palette) && Sound(log.shared.platform)
    requires AllWellMade(log.fields) && AllWellMade(e.fields)
    requires ConsoleColour.KeysNoEscape(log.fields) && ConsoleColour.KeysNoEscape(e.fields)
    requires log.shared.timestamps ==> NoEscape(e.stamp)
    ensures Wears(ConsoleLine.Line(log, e), ConsoleLineTint(log, e))
  {
    hide Wears, ConsoleLine.Head, ConsoleLine.Foot, ConsoleLine.Prefix, Clean, Sound, AllWellMade;
    hide ConsoleFieldsTint, ConsoleHeadTint, ConsoleFootTint, ConsoleColour.KeysNoEscape;
    var sh := log.shared;
    ConsoleHeadWears(sh, e);
    ConsoleFieldsWear(sh, log.fields);
    ConsoleFieldsWear(sh, e.fields);
    ConsoleFootWears(log);
    Joined(ConsoleLine.Head(sh, e), ConsoleHeadTint(sh, e), ConsoleLine.Statics(log), ConsoleFieldsTint(sh, log.fields),
           ConsoleLine.Prefix(sh, e.fields), ConsoleFieldsTint(sh, e.fields), ConsoleLine.Foot(log), ConsoleFootTint(log));
  }

  // ----- the console by format -----

  /** A field by format: for `%m` the colour comes with the value, and twice where its prefix is too long to prepare. */
  function KvFieldTint(sh: Shared, f: Field): bytes {
    var p := sh.palette;
    if f.value.Errno? then
      ConsoleFieldTint(p, if |p.reset| + |p.key| + |f.key| + |p.reset| + 2 < 128 then [] else p.error) + p.error
    else ConsoleFieldTint(p, ConsoleTint(sh, f.value))
  }

  function KvFieldsTint(sh: Shared, fs: seq<Field>): bytes {
    if fs == [] then [] else KvFieldTint(sh, fs[0]) + KvFieldsTint(sh, fs[1..])
  }

  lemma ConsoleKvWears(sh: Shared, f: Field)
    requires sh.colour && Clean(sh.palette) && Sound(sh.platform) && NoEscape(f.key)
    ensures Wears(ConsoleLine.KvText(sh, f), KvFieldTint(sh, f))
  {
    var v := f.value;
    ConsoleColour.ColoursClean(sh, v);
    TintsAre(sh, v);
    assert NoEscape(ConsoleColour.KvValue(sh, v)) by {
      if v.Str? {
        ConsoleColour.ValueNoEscape(v.text);
      } else {
        ConsoleColour.DatumNoEscape(sh, v);
      }
    }
    NothingWears();
    assert Colour([]) by { JsonColour.EmptyErases(); }
    TextWears(ConsoleColour.KvValue(sh, v));
    ColourWears(sh.palette.error);
    assert v.Errno? ==>
        (ConsoleLine.KvPrepared(sh, f) <==> |sh.palette.reset| + |sh.palette.key| + |f.key| + |sh.palette.reset| + 2 < 128);
    hide Wears, Colour, Clean, Sound, NoEscape, ConsoleLine.PrefixText, ConsoleLine.KvPrepared;
    hide ConsoleFieldTint, ConsoleLine.DatumText, ConsoleString.Value;
    var c := if ConsoleLine.KvPrepared(sh, f) then ConsoleLine.KvPreparedColour(sh, v) else ConsoleLine.DatumColour(sh, v);
    ConsolePrefixWears(sh, f.key, c);
    var front, tint := ConsoleLine.PrefixText(sh, f.key, c), ConsoleFieldTint(sh.palette, c);
    var extra := if v.Errno? then sh.palette.error else [];
    WearsConcat(front, tint, extra, extra);
    Beside(ConsoleColour.KvValue(sh, v), front + extra, tint + extra);
    assert tint + [] == tint;
  }

  lemma {:induction false} ConsoleKvSetWears(sh: Shared, fs: seq<Field>)
    requires sh.colour && Clean(sh.palette) && Sound(sh.platform) && ConsoleColour.KeysNoEscape(fs)
    ensures Wears(ConsoleLine.KvSet(sh, fs), KvFieldsTint(sh, fs))
  {
    NothingWears();
    hide Wears, ConsoleLine.KvText, Clean, Sound, KvFieldTint;
    if fs == [] {
    } else {
      ConsoleKvSetWears(sh, fs[1..]);
      ConsoleKvWears(sh, fs[0]);
      WearsConcat(ConsoleLine.KvText(sh, fs[0]), KvFieldTint(sh, fs[0]),
                  ConsoleLine.KvSet(sh, fs[1..]), KvFieldsTint(sh, fs[1..]));
    }
  }

  /** The same for a line of the kvfmt path. */
  lemma ConsoleKvLineWears(log: Logger, e: Event)
    requires ConsoleLine.Consistent(log) && log.shared.colour && Clean(log.shared.palette) && Sound(log.shared.platform)
    requires AllWellMade(log.fields) && ConsoleColour.KeysNoEscape(log.fields) && AllKvMade(e.fields)
    requires log.shared.timestamps ==> NoEscape(e.stamp)
    ensures Wears(ConsoleLine.KvLine(log, e),
                  ConsoleHeadTint(log.shared, e) +
                  (ConsoleFieldsTint(log.shared, log.fields) + KvFieldsTint(log.shared, e.fields)) + ConsoleFootTint(log))
  {
    hide Wears, ConsoleLine.Head, ConsoleLine.Foot, ConsoleLine.Prefix, ConsoleLine.KvSet, Clean, Sound, AllWellMade;
    hide ConsoleFieldsTint, ConsoleHeadTint, ConsoleFootTint, KvFieldsTint, ConsoleColour.KeysNoEscape, AllKvMade;
    var sh := log.shared;
    ConsoleHeadWears(sh, e);
    ConsoleFieldsWear(sh, log.fields);
    ConsoleColour.KvKeysNoEscape(e.fields);
    ConsoleKvSetWears(sh, e.fields);
    ConsoleFootWears(log);
    Joined(ConsoleLine.Head(sh, e), ConsoleHeadTint(sh, e), ConsoleLine.Statics(log), ConsoleFieldsTint(sh, log.fields),
           ConsoleLine.KvSet(sh, e.fields), KvFieldsTint(sh, e.fields), ConsoleLine.Foot(log), ConsoleFootTint(log));
  }
}
