/**
 Colour erasure for console lines, on the field path and on the kvfmt path, and
 the agreement of the two paths.
 */
module ConsoleColour {
  import opened Bytes
  import opened Events
  import opened ConsoleLine
  import opened Ansi
  import ConsoleString
  import Integers
  import JsonText
  import JsonColour
  import JsonReads
  import JsonString

  function PlainLogger(log: Logger): Logger {
    log.(shared := Plainly(log.shared), prefix := Prefix(Plainly(log.shared), log.fields))
  }

  /** Console keys are emitted as they stand. */
  predicate KeysNoEscape(fs: seq<Field>) {
    forall i :: 0 <= i < |fs| ==> NoEscape(fs[i].key)
  }

  lemma {:induction false} ValueNoEscape(s: bytes)
    ensures NoEscape(ConsoleString.Value(s)) && NoEscape(ConsoleString.Message(s))
  {
    ConsoleString.OutputPrintable(s);
  }

  lemma DatumNoEscape(sh: Shared, v: Datum)
    requires Sound(sh.platform) && (v.Str? && v.simple ==> ConsoleString.Simple(v.text))
    ensures NoEscape(DatumText(sh, v))
  {
    hide ConsoleString.Value, Integers.SignedText, Integers.Decimal, Hex, JsonText.IsNumber;
    match v
    case Null =>
    case Str(text, simple, _) => ValueNoEscape(text);
    case Signed(i) =>
      Integers.SignedIsNumber(i);
      JsonColour.NumberNoEscape(Integers.SignedText(i));
    case Unsigned(u) => JsonColour.UnsignedNoEscape(u);
    case Double(d) =>
      if d.Finite? {
        JsonColour.NumberNoEscape(sh.platform.double(d.bits));
      }
    case Bool(_) =>
    case Pointer(a) => assert JsonString.Trusted(sh.platform.pointer(a));
    case Blob(data) =>
      HexIsTrusted(data);
      JsonColour.QuoteNoEscape(Hex(data));
    case Time(t) => assert JsonString.Trusted(sh.platform.time(t));
    case Duration(s) => assert JsonString.Trusted(sh.platform.duration(s));
    case Errno(code) => ValueNoEscape(sh.platform.errno(code));
  }

  /** A field without colours: the cache makes no difference. */
  lemma PlainField(sh: Shared, f: Field)
    requires !sh.colour && f.key != []
    ensures FieldText(sh, f) == [SPACE] + (f.key + [EQUALS]) + DatumText(sh, f.value)
  {
    PrefixesAgree(sh, f.key, DatumColour(sh, f.value));
  }

  lemma ColoursClean(sh: Shared, v: Datum)
    requires Clean(sh.palette)
    ensures Colour(DatumColour(sh, v)) && Colour(sh.palette.error) && Colour(sh.palette.reset)
    ensures Colour(sh.palette.timestamp) && Colour(sh.palette.message)
  {
    hide Colour;
  }

  lemma FieldErases(sh: Shared, f: Field)
    requires sh.colour && Clean(sh.palette) && Sound(sh.platform) && WellMade(f) && NoEscape(f.key)
    ensures Erases(FieldText(sh, f), FieldText(Plainly(sh), f))
  {
    JsonColour.EmptyErases();
    DatumNoEscape(sh, f.value);
    TextErases(DatumText(sh, f.value));
    ColoursClean(sh, f.value);
    hide DatumColour, Clean, Colour, Erases, NoEscape, Sound, WellMade, PrefixText, FallbackText;
    if f.key != [] {
      var colour := DatumColour(sh, f.value);
      assert DatumText(sh, f.value) == DatumText(Plainly(sh), f.value);
      PrefixErases(sh, f.key, colour);
      PlainField(Plainly(sh), f);
      var front := if Cacheable(sh, f.key, colour) then PrefixText(sh, f.key, colour) else FallbackText(sh, f.key, colour);
      ErasesConcat(front, [SPACE] + (f.key + [EQUALS]), DatumText(sh, f.value), DatumText(sh, f.value));
    }
  }

  lemma {:induction false} PrefixErased(sh: Shared, fs: seq<Field>)
    requires sh.colour && Clean(sh.palette) && Sound(sh.platform) && AllWellMade(fs) && KeysNoEscape(fs)
    ensures Erases(Prefix(sh, fs), Prefix(Plainly(sh), fs))
  {
    JsonColour.EmptyErases();
    hide Erases, FieldText, Clean, Sound;
    if fs == [] {
    } else {
      PrefixErased(sh, fs[1..]);
      FieldErases(sh, fs[0]);
      ErasesConcat(FieldText(sh, fs[0]), FieldText(Plainly(sh), fs[0]), Prefix(sh, fs[1..]), Prefix(Plainly(sh), fs[1..]));
    }
  }

  lemma LabelNoEscape(l: Level)
    ensures NoEscape(LevelLabel(l))
  {
  }

  lemma LevelIsSimple(l: Level)
    ensures ConsoleString.Simple(LevelText(l))
  {
  }

  lemma LevelFieldMade(l: Level)
    ensures LevelField(l).key == LOGLEVEL && NoEscape(LOGLEVEL) && WellMade(LevelField(l))
  {
    hide JsonString.Trusted, LevelText, ConsoleString.Simple;
    LevelIsSimple(l);
    JsonReads.LevelIsAscii(l);
    JsonString.AsciiTrustedIsTrusted(LOGLEVEL);
    JsonString.AsciiTrustedIsTrusted(LevelText(l));
  }

  lemma FragmentErases(sh: Shared, l: Level)
    requires sh.colour && Clean(sh.palette)
    ensures Erases(LevelFragment(sh, l), LevelFragment(Plainly(sh), l))
  {
    hide Colour, Erases, LevelLabel, NoEscape;
    LabelNoEscape(l);
    TextErases(LevelLabel(l));
    Wrapped(LevelColour(sh.palette, l), LevelLabel(l), sh.palette.reset);
  }

  lemma StampErases(sh: Shared, e: Event)
    requires sh.colour && Clean(sh.palette) && (sh.timestamps ==> NoEscape(e.stamp))
    ensures Erases(if sh.timestamps then sh.palette.timestamp + e.stamp + [SPACE] else [],
                   if sh.timestamps then [] + e.stamp + [SPACE] else [])
  {
    JsonColour.EmptyErases();
    ColoursClean(sh, Null);
    TextErases([SPACE]);
    hide Erases, Colour, Clean;
    if sh.timestamps {
      TextErases(e.stamp);
      ColourVanishes(sh.palette.timestamp, e.stamp, e.stamp);
      ErasesConcat(sh.palette.timestamp + e.stamp, e.stamp, [SPACE], [SPACE]);
      assert [] + e.stamp == e.stamp;
    }
  }

  lemma MessageErases(sh: Shared, e: Event)
    requires sh.colour && Clean(sh.palette)
    ensures Erases(if e.msg == [] then [] else [SPACE] + sh.palette.message + ConsoleString.Message(e.msg),
                   if e.msg == [] then [] else [SPACE] + [] + ConsoleString.Message(e.msg))
  {
    JsonColour.EmptyErases();
    ColoursClean(sh, Null);
    TextErases([SPACE]);
    ValueNoEscape(e.msg);
    hide Erases, Colour, Clean, ConsoleString.Message;
    var m := ConsoleString.Message(e.msg);
    TextErases(m);
    ColourVanishes(sh.palette.message, [SPACE], [SPACE]);
    ErasesConcat([SPACE] + sh.palette.message, [SPACE], m, m);
    assert [SPACE] + [] == [SPACE];
  }

  lemma HeadErases(sh: Shared, e: Event)
    requires sh.colour && Clean(sh.palette) && (sh.timestamps ==> NoEscape(e.stamp))
    ensures Erases(Head(sh, e), Head(Plainly(sh), e))
  {
    hide Erases, Clean, LevelFragment, ConsoleString.Message;
    StampErases(sh, e);
    FragmentErases(sh, Slot(e.level));
    MessageErases(sh, e);
    var p := Plainly(sh);
    var s0, s1 := if sh.timestamps then sh.palette.timestamp + e.stamp + [SPACE] else [],
                  if sh.timestamps then [] + e.stamp + [SPACE] else [];
    var l0, l1 := LevelFragment(sh, Slot(e.level)), LevelFragment(p, Slot(e.level));
    var m0, m1 := if e.msg == [] then [] else [SPACE] + sh.palette.message + ConsoleString.Message(e.msg),
                  if e.msg == [] then [] else [SPACE] + [] + ConsoleString.Message(e.msg);
    ErasesConcat(s0, s1, l0, l1);
    ErasesConcat(s0 + l0, s1 + l1, m0, m1);
  }

  lemma EndErases(c: bytes, p: bytes, reset: bytes)
    requires Erases(c, p) && Colour(reset)
    ensures Erases(c + reset + [NL], p + [] + [NL])
  {
    TextErases([NL]);
    hide Erases, Colour;
    ColourVanishes(reset, c, p);
    ErasesConcat(c + reset, p, [NL], [NL]);
    assert p + [] == p;
  }

  lemma FootErases(log: Logger)
    requires log.shared.colour && Clean(log.shared.palette) && Sound(log.shared.platform)
    ensures Erases(Foot(log), Foot(PlainLogger(log)))
  {
    hide Erases, Clean, Colour, FieldText, WellMade, LevelField, NoEscape, Sound, Prefix;
    var sh, f := log.shared, LevelField(log.minLevel);
    JsonColour.EmptyErases();
    ColoursClean(sh, Null);
    LevelFieldMade(log.minLevel);
    if log.includeLevel {
      FieldErases(sh, f);
      EndErases(FieldText(sh, f), FieldText(Plainly(sh), f), sh.palette.reset);
    } else {
      EndErases([], [], sh.palette.reset);
    }
  }

  lemma StaticsErase(log: Logger)
    requires Consistent(log) && log.shared.colour && Clean(log.shared.palette) && Sound(log.shared.platform)
    requires AllWellMade(log.fields) && KeysNoEscape(log.fields)
    ensures Erases(Statics(log), Statics(PlainLogger(log)))
  {
    hide Erases, Prefix;
    PrefixErased(log.shared, log.fields);
  }

  /** Erasing the colours of any line gives the plain line. */
  lemma ColourErasure(log: Logger, e: Event)
    requires Consistent(log) && log.shared.colour && Clean(log.shared.palette) && Sound(log.shared.platform)
    requires AllWellMade(log.fields) && AllWellMade(e.fields) && KeysNoEscape(log.fields) && KeysNoEscape(e.fields)
    requires log.shared.timestamps ==> NoEscape(e.stamp)
    ensures Erases(Line(log, e), Line(PlainLogger(log), e))
    ensures Strip(Line(log, e)) == Line(PlainLogger(log), e)
  {
    hide Head, Foot, Statics, Prefix, Clean, Sound, Erases, AllWellMade, KeysNoEscape;
    var sh, p, plain := log.shared, Plainly(log.shared), PlainLogger(log);
    HeadErases(sh, e);
    StaticsErase(log);
    PrefixErased(sh, e.fields);
    FootErases(log);
    JsonColour.Whole(Head(sh, e), Head(p, e), Statics(log), Statics(plain),
                     Prefix(sh, e.fields), Prefix(p, e.fields), Foot(log), Foot(plain), Foot(plain));
    JsonColour.StripOf(Line(log, e), Line(plain, e));
  }

  // ----- the kvfmt path -----

  function KvValue(sh: Shared, v: Datum): bytes {
    if v.Str? then ConsoleString.Value(v.text) else DatumText(sh, v)
  }

  lemma KvPlain(sh: Shared, f: Field)
    requires !sh.colour
    ensures KvText(sh, f) == [SPACE] + (f.key + [EQUALS]) + KvValue(sh, f.value)
  {
    PrefixesAgree(sh, f.key, KvPreparedColour(sh, f.value));
    PrefixesAgree(sh, f.key, DatumColour(sh, f.value));
    hide PrefixText, ConsoleString.Value, DatumText;
    var front := [SPACE] + (f.key + [EQUALS]);
    assert front + [] == front;
  }

  lemma KvErases(sh: Shared, f: Field)
    requires sh.colour && Clean(sh.palette) && Sound(sh.platform) && NoEscape(f.key)
    ensures Erases(KvText(sh, f), KvText(Plainly(sh), f))
  {
    var v := f.value;
    ColoursClean(sh, v);
    KvPlain(Plainly(sh), f);
    assert NoEscape(KvValue(sh, v)) by {
      if v.Str? {
        ValueNoEscape(v.text);
      } else {
        DatumNoEscape(sh, v);
      }
    }
    assert Colour([]) by { JsonColour.EmptyErases(); }
    TextErases(KvValue(sh, v));
    hide Erases, Colour, Clean, Sound, NoEscape, PrefixText, DatumColour, KvPrepared;
    assert KvValue(sh, v) == KvValue(Plainly(sh), v);
    var colour := if KvPrepared(sh, f) then KvPreparedColour(sh, v) else DatumColour(sh, v);
    PrefixErases(sh, f.key, colour);
    var front := [SPACE] + (f.key + [EQUALS]);
    var extra := if v.Errno? then sh.palette.error else [];
    ColourVanishes(extra, PrefixText(sh, f.key, colour), front);
    ErasesConcat(PrefixText(sh, f.key, colour) + extra, front, KvValue(sh, v), KvValue(sh, v));
  }

  lemma {:induction false} KvSetErases(sh: Shared, fs: seq<Field>)
    requires sh.colour && Clean(sh.palette) && Sound(sh.platform) && KeysNoEscape(fs)
    ensures Erases(KvSet(sh, fs), KvSet(Plainly(sh), fs))
  {
    JsonColour.EmptyErases();
    hide Erases, KvText, Clean, Sound;
    if fs == [] {
    } else {
      KvSetErases(sh, fs[1..]);
      KvErases(sh, fs[0]);
      ErasesConcat(KvText(sh, fs[0]), KvText(Plainly(sh), fs[0]), KvSet(sh, fs[1..]), KvSet(Plainly(sh), fs[1..]));
    }
  }

  lemma KvKeysNoEscape(fs: seq<Field>)
    requires AllKvMade(fs)
    ensures KeysNoEscape(fs)
  {
    forall i | 0 <= i < |fs|
      ensures NoEscape(fs[i].key)
    {
      assert KvMade(fs[i]);
    }
  }

  /** Erasing the colours of a kvfmt line gives the plain kvfmt line. */
  lemma KvColourErasure(log: Logger, e: Event)
    requires Consistent(log) && log.shared.colour && Clean(log.shared.palette) && Sound(log.shared.platform)
    requires AllWellMade(log.fields) && KeysNoEscape(log.fields) && AllKvMade(e.fields)
    requires log.shared.timestamps ==> NoEscape(e.stamp)
    ensures Erases(KvLine(log, e), KvLine(PlainLogger(log), e))
    ensures Strip(KvLine(log, e)) == KvLine(PlainLogger(log), e)
  {
    hide Head, Foot, Statics, KvSet, Prefix, Clean, Sound, Erases, AllWellMade, KeysNoEscape, AllKvMade;
    var sh, p, plain := log.shared, Plainly(log.shared), PlainLogger(log);
    HeadErases(sh, e);
    StaticsErase(log);
    KvKeysNoEscape(e.fields);
    KvSetErases(sh, e.fields);
    FootErases(log);
    JsonColour.Whole(Head(sh, e), Head(p, e), Statics(log), Statics(plain),
                     KvSet(sh, e.fields), KvSet(p, e.fields), Foot(log), Foot(plain), Foot(plain));
    JsonColour.StripOf(KvLine(log, e), KvLine(plain, e));
  }

  lemma {:induction false} KvSetIsPrefix(sh: Shared, fs: seq<Field>)
    requires !sh.colour && AllKvMade(fs)
    ensures KvSet(sh, fs) == Prefix(sh, AllConstructed(fs))
  {
    hide KvText, FieldText;
    if fs == [] {
    } else {
      var g := Constructed(fs[0]);
      KvSetIsPrefix(sh, fs[1..]);
      Tail(g, AllConstructed(fs[1..]));
      assert g.key == fs[0].key && DatumText(sh, g.value) == KvValue(sh, fs[0].value);
      KvPlain(sh, fs[0]);
      PlainField(sh, g);
    }
  }

  /**
   Without colours a line of the kvfmt path is byte for byte the line that the
   constructed fields give; with colours the two are the same once erased.
   */
  lemma KvLineIsLine(log: Logger, e: Event)
    requires Consistent(log) && AllKvMade(e.fields)
    requires log.shared.colour ==>
               Clean(log.shared.palette) && Sound(log.shared.platform) && AllWellMade(log.fields) && KeysNoEscape(log.fields) &&
               (log.shared.timestamps ==> NoEscape(e.stamp))
    ensures var built := e.(fields := AllConstructed(e.fields));
            if log.shared.colour then Strip(KvLine(log, e)) == Strip(Line(log, built))
            else KvLine(log, e) == Line(log, built)
  {
    var built := e.(fields := AllConstructed(e.fields));
    KvSetIsPrefix(Plainly(log.shared), e.fields);
    if log.shared.colour {
      assert KeysNoEscape(built.fields) by { ConstructedKeys(e.fields); }
      KvColourErasure(log, e);
      ColourErasure(log, built);
      SameHead(PlainLogger(log).shared, e, built);
    } else {
      assert Plainly(log.shared) == log.shared;
      SameHead(log.shared, e, built);
    }
  }

  lemma SameHead(sh: Shared, e: Event, built: Event)
    requires built == e.(fields := built.fields)
    ensures Head(sh, e) == Head(sh, built)
  {
  }

  lemma {:induction false} ConstructedKeys(fs: seq<Field>)
    requires AllKvMade(fs)
    ensures KeysNoEscape(AllConstructed(fs))
  {
    if fs == [] {
    } else {
      ConstructedKeys(fs[1..]);
      assert KvMade(fs[0]);
    }
  }
}
