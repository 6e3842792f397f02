/**
 What a reader of JSON makes of emitted lines: one object whose ordered pairs
 are exactly those of the event, on the field path and on the kvfmt path.
 */
module JsonReads {
  import opened Bytes
  import opened Events
  import opened JsonText
  import opened JsonLine
  import Utf8
  import JsonString
  import Integers
  import Wording

  // ----- what a line should say -----

  function Meaning(sh: Shared, v: Datum): Json {
    match v
    case Null => Json.Null
    case Str(text, _, _) => String(Utf8.CodePoints(text))
    case Signed(i) => Number(Integers.SignedText(i))
    case Unsigned(u) => Number(Integers.SignedText(u))
    case Double(d) =>
      if d.Finite? then Number(sh.platform.double(d.bits))
      else if sh.nonFiniteAsNull then Json.Null
      else String(Ascii(if d.NaN? then "NaN" else if d.negative then "-Inf" else "+Inf"))
    case Bool(b) => Json.Bool(b)
    case Pointer(a) => String(Utf8.CodePoints(sh.platform.pointer(a)))
    case Blob(data) => String(Utf8.CodePoints(Hex(data)))
    case Time(t) => String(Utf8.CodePoints(sh.platform.time(t)))
    case Duration(s) => String(Utf8.CodePoints(sh.platform.duration(s)))
    case Errno(code) => String(Utf8.CodePoints(sh.platform.errno(code)))
  }

  function FieldPair(sh: Shared, f: Field): Pair {
    Pair(Utf8.CodePoints(f.key), Meaning(sh, f.value))
  }

  /** The fields in order, those without a key dropped. */
  function FieldPairs(sh: Shared, fs: seq<Field>): seq<Pair> {
    if fs == [] then []
    else (if fs[0].key == [] then [] else [FieldPair(sh, fs[0])]) + FieldPairs(sh, fs[1..])
  }

  function TextPair(key: bytes, text: bytes): Pair {
    Pair(Utf8.CodePoints(key), String(Utf8.CodePoints(text)))
  }

  function HeadPairs(sh: Shared, e: Event): seq<Pair> {
    (if sh.timestamps then [TextPair(Ascii(if sh.verbose then "time" else "ts"), e.stamp)] else []) +
    [TextPair(Ascii(if sh.verbose then "level" else "lvl"), Ascii(Wording.EventName(e.level)))] +
    (if e.msg == [] then [] else [TextPair(Ascii(if sh.verbose then "message" else "msg"), e.msg)])
  }

  function FootPairs(log: Logger): seq<Pair> {
    if log.includeLevel then [TextPair(Ascii("loglevel"), Ascii(Wording.Name(log.minLevel)))] else []
  }

  /** Words stand for themselves. */
  lemma AsciiPoints(s: string)
    requires IsAscii(s)
    ensures Utf8.CodePoints(Ascii(s)) == Ascii(s)
  {
    Utf8.AsciiValid(Ascii(s));
  }

  lemma WordsApart(s: string, t: string)
    requires IsAscii(s) && IsAscii(t) && (|s| != |t| || (s != "" && s[0] != t[0]))
    ensures Utf8.CodePoints(Ascii(s)) != Utf8.CodePoints(Ascii(t))
  {
    AsciiPoints(s);
    AsciiPoints(t);
    assert |s| == |t| ==> Ascii(s)[0] != Ascii(t)[0];
  }

  lemma Apart(a: seq<Pair>, l: Pair, b: seq<Pair>, c: seq<Pair>)
    requires |a| <= 1 && |b| <= 1 && |c| <= 1
    requires a != [] ==> a[0].key != l.key && (b != [] ==> a[0].key != b[0].key) && (c != [] ==> a[0].key != c[0].key)
    requires b != [] ==> b[0].key != l.key && (c != [] ==> b[0].key != c[0].key)
    requires c != [] ==> c[0].key != l.key
    ensures var ps := a + [l] + b + c;
            forall i, j :: 0 <= i < j < |ps| ==> ps[i].key != ps[j].key
  {
  }

  /** The fixed keys of a line are all different. */
  lemma FixedKeysDiffer(log: Logger, e: Event)
    ensures var ps := HeadPairs(log.shared, e) + FootPairs(log);
            forall i, j :: 0 <= i < j < |ps| ==> ps[i].key != ps[j].key
  {
    hide Utf8.CodePoints, Ascii, IsAscii;
    var sh := log.shared;
    var ts, lvl, msg := if sh.verbose then "time" else "ts", if sh.verbose then "level" else "lvl",
                        if sh.verbose then "message" else "msg";
    Spellings();
    WordsApart(ts, lvl);
    WordsApart(ts, msg);
    WordsApart(lvl, msg);
    WordsApart(ts, "loglevel");
    WordsApart(lvl, "loglevel");
    WordsApart(msg, "loglevel");
    Apart(if sh.timestamps then [TextPair(Ascii(ts), e.stamp)] else [],
          TextPair(Ascii(lvl), Ascii(Wording.EventName(e.level))),
          if e.msg == [] then [] else [TextPair(Ascii(msg), e.msg)], FootPairs(log));
  }

  lemma Spellings()
    ensures IsAscii("time") && IsAscii("ts") && IsAscii("level") && IsAscii("lvl") && IsAscii("message")
    ensures IsAscii("msg") && IsAscii("loglevel")
  {
  }

  /** ts?, lvl, msg?, static fields, call fields, loglevel? */
  function Pairs(log: Logger, e: Event): seq<Pair> {
    HeadPairs(log.shared, e) + (FieldPairs(log.shared, log.fields + e.fields) + FootPairs(log))
  }

  // ----- the same line as a comma-separated list -----

  function FieldTexts(sh: Shared, fs: seq<Field>): seq<bytes> {
    if fs == [] then []
    else (if fs[0].key == [] then [] else [FieldMember(sh, fs[0])]) + FieldTexts(sh, fs[1..])
  }

  function KvTexts(sh: Shared, fs: seq<Field>): seq<bytes> {
    if fs == [] then [] else [KvMember(sh, fs[0])] + KvTexts(sh, fs[1..])
  }

  function HeadTexts(sh: Shared, e: Event): seq<bytes> {
    (if sh.timestamps then [StampMember(sh, e.stamp)] else []) +
    [LevelMember(sh, LevelKey(sh), Slot(e.level))] +
    (if e.msg == [] then [] else [MessageMember(sh, e.msg)])
  }

  function FootTexts(log: Logger): seq<bytes> {
    if log.includeLevel then [LevelMember(log.shared, LOGLEVEL, log.minLevel)] else []
  }

  /** Each text with its comma in front. */
  function Commas(ts: seq<bytes>): bytes {
    if ts == [] then [] else [COMMA] + ts[0] + Commas(ts[1..])
  }

  lemma {:induction false} CommasConcat(a: seq<bytes>, b: seq<bytes>)
    ensures Commas(a + b) == Commas(a) + Commas(b)
  {
    if a == [] {
      assert a + b == b;
    } else {
      CommasConcat(a[1..], b);
      assert (a + b)[1..] == a[1..] + b;
      Assoc([COMMA] + a[0], Commas(a[1..]), Commas(b));
    }
  }

  lemma {:induction false} JoinIsCommas(ts: seq<bytes>)
    requires ts != []
    ensures Join(ts) == ts[0] + Commas(ts[1..])
  {
    if |ts| == 1 {
    } else {
      JoinIsCommas(ts[1..]);
      var inner := ts[1..];
      Assoc(ts[0], [COMMA], inner[0] + Commas(inner[1..]));
      Assoc([COMMA], inner[0], Commas(inner[1..]));
    }
  }

  lemma CommasOne(t: bytes)
    ensures Commas([t]) == [COMMA] + t
  {
    assert [t][1..] == [];
  }

  lemma {:induction false} PrefixIsCommas(sh: Shared, fs: seq<Field>)
    ensures Prefix(sh, fs) == Commas(FieldTexts(sh, fs))
  {
    if fs == [] {
    } else {
      hide FieldMember;
      PrefixIsCommas(sh, fs[1..]);
      var rest := FieldTexts(sh, fs[1..]);
      if fs[0].key == [] {
        assert [] + rest == rest;
      } else {
        var t := FieldMember(sh, fs[0]);
        CommasConcat([t], rest);
        CommasOne(t);
      }
    }
  }

  lemma {:induction false} KvSetIsCommas(sh: Shared, fs: seq<Field>)
    ensures KvSet(sh, fs) == Commas(KvTexts(sh, fs))
  {
    if fs == [] {
    } else {
      hide KvMember;
      KvSetIsCommas(sh, fs[1..]);
      Tail(KvMember(sh, fs[0]), KvTexts(sh, fs[1..]));
    }
  }

  lemma HeadIsJoined(sh: Shared, e: Event)
    ensures HeadTexts(sh, e) != []
    ensures Head(sh, e) == [OPEN] + HeadTexts(sh, e)[0] + Commas(HeadTexts(sh, e)[1..])
  {
    hide StampMember, LevelMember, MessageMember;
    var l, m := LevelMember(sh, LevelKey(sh), Slot(e.level)), MessageMember(sh, e.msg);
    CommasOne(l);
    CommasOne(m);
    var ts := HeadTexts(sh, e);
    if sh.timestamps {
      var t := StampMember(sh, e.stamp);
      if e.msg == [] {
        assert ts == [t, l] && ts[1..] == [l];
        assert Head(sh, e) == [OPEN] + t + ([COMMA] + l);
      } else {
        assert ts == [t, l, m] && ts[1..] == [l] + [m];
        CommasConcat([l], [m]);
        assert Head(sh, e) == [OPEN] + t + ([COMMA] + l + ([COMMA] + m));
      }
    } else if e.msg == [] {
      assert ts == [l] && ts[1..] == [];
      assert Head(sh, e) == [OPEN] + l + [];
    } else {
      assert ts == [l, m] && ts[1..] == [m];
      assert Head(sh, e) == [OPEN] + l + ([COMMA] + m);
    }
  }

  lemma FootIsCommas(log: Logger)
    ensures Foot(log) == Commas(FootTexts(log)) + [CLOSE] + [NL]
  {
    hide LevelMember;
    CommasOne(LevelMember(log.shared, LOGLEVEL, log.minLevel));
  }

  lemma {:induction false} JoinParts(hs: seq<bytes>, ms: seq<bytes>, fs: seq<bytes>)
    requires hs != []
    ensures Join(hs + (ms + fs)) == hs[0] + (Commas(hs[1..]) + (Commas(ms) + Commas(fs)))
  {
    hide Commas, Join;
    FirstAndRest(hs, ms + fs);
    JoinIsCommas(hs + (ms + fs));
    CommasConcat(hs[1..], ms + fs);
    CommasConcat(ms, fs);
  }

  lemma FirstAndRest(a: seq<bytes>, b: seq<bytes>)
    requires a != []
    ensures (a + b)[0] == a[0] && (a + b)[1..] == a[1..] + b
  {
  }

  /** Head, middle and foot make one comma-separated list between braces. */
  lemma {:induction false} Assemble(head: bytes, hs: seq<bytes>, ms: seq<bytes>, fs: seq<bytes>)
    requires hs != [] && head == [OPEN] + hs[0] + Commas(hs[1..])
    ensures head + Commas(ms) + (Commas(fs) + [CLOSE] + [NL]) == [OPEN] + Join(hs + (ms + fs)) + [CLOSE] + [NL]
  {
    hide Commas, Join;
    JoinParts(hs, ms, fs);
    Regroup([OPEN], hs[0], Commas(hs[1..]), Commas(ms), Commas(fs), [CLOSE], [NL]);
  }

  lemma Regroup(o: bytes, x: bytes, h: bytes, m: bytes, f: bytes, c: bytes, n: bytes)
    ensures o + x + h + m + (f + c + n) == o + (x + (h + (m + f))) + c + n
  {
    Assoc(f, c, n);
    Assoc(o + x + h + m, f, c + n);
    Assoc(o + x + h, m, f);
    Assoc(o + x, h, m + f);
    Assoc(o, x, h + (m + f));
    Assoc(o + (x + (h + (m + f))), c, n);
  }

  // ----- pieces of a line without colours read back -----

  lemma PlainMember(k: bytes, v: bytes)
    ensures [] + (k + [COLON]) + ([] + v + []) == k + [COLON] + v
  {
  }

  lemma Untouched(s: bytes)
    ensures s + [] == s
  {
  }

  lemma {:induction false} TextRead(sh: Shared, key: bytes, text: bytes, k: bytes, v: bytes)
    requires ReadsAsKey(k, Utf8.CodePoints(key)) && ReadsAs(v, String(Utf8.CodePoints(text)))
    ensures ReadsAsMember([] + (k + [COLON]) + ([] + v + []), TextPair(key, text))
  {
    PlainMember(k, v);
    MemberText(k, Utf8.CodePoints(key), v, String(Utf8.CodePoints(text)));
  }

  /** The fixed keys and the level names are plain ASCII. */
  lemma FixedKey(sh: Shared, l: Level)
    ensures JsonString.Trusted(StampKey(sh)) && JsonString.Trusted(LevelKey(sh))
    ensures JsonString.Trusted(MessageKey(sh)) && JsonString.Trusted(LOGLEVEL)
    ensures JsonString.Trusted(LevelText(l))
  {
    hide JsonString.Trusted;
    JsonString.AsciiTrustedIsTrusted(StampKey(sh));
    JsonString.AsciiTrustedIsTrusted(LevelKey(sh));
    JsonString.AsciiTrustedIsTrusted(MessageKey(sh));
    JsonString.AsciiTrustedIsTrusted(LOGLEVEL);
    LevelIsAscii(l);
    JsonString.AsciiTrustedIsTrusted(LevelText(l));
  }

  /** The fixed keys, spelt out. */
  lemma KeysAreSpelt(sh: Shared)
    ensures StampKey(sh) == Ascii(if sh.verbose then "time" else "ts")
    ensures LevelKey(sh) == Ascii(if sh.verbose then "level" else "lvl")
    ensures MessageKey(sh) == Ascii(if sh.verbose then "message" else "msg")
    ensures LOGLEVEL == Ascii("loglevel")
  {
  }

  lemma NonFiniteIsSpelt(d: Real)
    requires !d.Finite?
    ensures Utf8.CodePoints(NonFinite(d)) == Ascii(if d.NaN? then "NaN" else if d.negative then "-Inf" else "+Inf")
  {
    AsciiPoints(if d.NaN? then "NaN" else if d.negative then "-Inf" else "+Inf");
  }

  lemma LevelIsAscii(l: Level)
    ensures JsonString.AsciiTrusted(LevelText(l))
  {
  }

  lemma LevelReads(sh: Shared, key: bytes, l: Level)
    requires !sh.colour && JsonString.Trusted(key)
    ensures ReadsAsMember(LevelMember(sh, key, l), TextPair(key, LevelText(l)))
  {
    FixedKey(sh, l);
    JsonString.QuoteReads(key);
    JsonString.QuoteReads(LevelText(l));
    TextRead(sh, key, LevelText(l), JsonString.Quote(key), JsonString.Quote(LevelText(l)));
  }

  lemma StampReads(sh: Shared, stamp: bytes)
    requires !sh.colour && JsonString.Trusted(stamp)
    ensures ReadsAsMember(StampMember(sh, stamp), TextPair(StampKey(sh), stamp))
  {
    FixedKey(sh, Info);
    JsonString.QuoteReads(StampKey(sh));
    JsonString.QuoteReads(stamp);
    hide JsonString.Trusted, ReadsAsMember;
    var k := JsonString.Quote(StampKey(sh));
    TextRead(sh, StampKey(sh), stamp, k, JsonString.Quote(stamp));
    Untouched([] + (k + [COLON]));
  }

  lemma MessageReads(sh: Shared, msg: bytes)
    requires !sh.colour
    ensures ReadsAsMember(MessageMember(sh, msg), TextPair(MessageKey(sh), msg))
  {
    FixedKey(sh, Info);
    JsonString.QuoteReads(MessageKey(sh));
    JsonString.MaybeTrustedReads(msg);
    TextRead(sh, MessageKey(sh), msg, JsonString.Quote(MessageKey(sh)), JsonString.MaybeTrusted(msg));
  }

  lemma OneReads(t: bytes, p: Pair)
    requires ReadsAsMember(t, p)
    ensures ReadAsMembers([t], [p])
  {
    hide ReadsAsMember;
  }

  lemma Together(a: seq<bytes>, p: seq<Pair>, b: seq<bytes>, q: seq<Pair>)
    requires ReadAsMembers(a, p) && ReadAsMembers(b, q)
    ensures ReadAsMembers(a + b, p + q)
  {
    hide ReadsAsMember;
  }

  lemma HeadReads(sh: Shared, e: Event)
    requires !sh.colour && (sh.timestamps ==> JsonString.Trusted(e.stamp))
    ensures ReadAsMembers(HeadTexts(sh, e), HeadPairs(sh, e))
  {
    hide LevelMember, StampMember, MessageMember, ReadsAsMember, TextPair, JsonString.Trusted, ReadAsMembers;
    FixedKey(sh, Info);
    KeysAreSpelt(sh);
    Wording.NameIsSpelt(e.level);
    LevelReads(sh, LevelKey(sh), Slot(e.level));
    var ts, ps := [LevelMember(sh, LevelKey(sh), Slot(e.level))], [TextPair(LevelKey(sh), LevelText(Slot(e.level)))];
    OneReads(ts[0], ps[0]);
    Empty();
    var ts0: seq<bytes>, ps0: seq<Pair> := [], [];
    if sh.timestamps {
      StampReads(sh, e.stamp);
      ts0, ps0 := [StampMember(sh, e.stamp)], [TextPair(StampKey(sh), e.stamp)];
      OneReads(ts0[0], ps0[0]);
    }
    var ts2: seq<bytes>, ps2: seq<Pair> := [], [];
    if e.msg != [] {
      MessageReads(sh, e.msg);
      ts2, ps2 := [MessageMember(sh, e.msg)], [TextPair(MessageKey(sh), e.msg)];
      OneReads(ts2[0], ps2[0]);
    }
    Together(ts0, ps0, ts, ps);
    Together(ts0 + ts, ps0 + ps, ts2, ps2);
  }

  lemma Empty()
    ensures ReadAsMembers([], [])
  {
  }

  lemma FootReads(log: Logger)
    requires !log.shared.colour
    ensures ReadAsMembers(FootTexts(log), FootPairs(log))
  {
    hide LevelMember, ReadsAsMember, TextPair, JsonString.Trusted;
    FixedKey(log.shared, Info);
    KeysAreSpelt(log.shared);
    Wording.NameIsSpelt(log.minLevel);
    LevelReads(log.shared, LOGLEVEL, log.minLevel);
  }

  lemma NumberMeans(sh: Shared, v: Datum)
    requires Sound(sh.platform) && (v.Signed? || v.Unsigned? || (v.Double? && v.d.Finite?))
    ensures ReadsAs(DatumText(sh, v), Meaning(sh, v)) && KvDatum(sh, v) == DatumText(sh, v)
  {
    match v
    case Signed(i) =>
      Integers.SignedIsNumber(i);
      NumberReads(Integers.SignedText(i));
    case Unsigned(u) =>
      Integers.SignedIsNumber(u);
      NumberReads(Integers.SignedText(u));
    case Double(d) =>
      NumberReads(sh.platform.double(d.bits));
  }

  lemma DatumReads(sh: Shared, v: Datum)
    requires !sh.colour && Sound(sh.platform)
    requires v.Str? && v.trusted ==> JsonString.Trusted(v.text)
    ensures ReadsAs(DatumText(sh, v), Meaning(sh, v)) && ReadsAs(KvDatum(sh, v), Meaning(sh, v))
  {
    hide ReadsAs;
    LiteralsRead();
    match v
    case Null =>
    case Str(text, trusted, _) =>
      JsonString.MaybeTrustedReads(text);
      JsonString.EncodeReads(text);
      if trusted {
        JsonString.QuoteReads(text);
      }
    case Signed(_) => NumberMeans(sh, v);
    case Unsigned(_) => NumberMeans(sh, v);
    case Double(d) =>
      if d.Finite? {
        NumberMeans(sh, v);
      } else {
        NonFiniteIsSpelt(d);
        JsonString.EncodeReads(NonFinite(d));
        JsonString.MaybeTrustedReads(NonFinite(d));
      }
    case Bool(_) =>
    case Pointer(a) => JsonString.QuoteReads(sh.platform.pointer(a));
    case Blob(data) =>
      HexIsTrusted(data);
      JsonString.AsciiTrustedIsTrusted(Hex(data));
      JsonString.QuoteReads(Hex(data));
    case Time(t) => JsonString.QuoteReads(sh.platform.time(t));
    case Duration(s) => JsonString.QuoteReads(sh.platform.duration(s));
    case Errno(code) => JsonString.MaybeTrustedReads(sh.platform.errno(code));
  }

  lemma FieldReads(sh: Shared, f: Field)
    requires !sh.colour && Sound(sh.platform) && WellMade(f)
    ensures ReadsAsMember(FieldMember(sh, f), FieldPair(sh, f))
  {
    if f.trustedKey {
      JsonString.QuoteReads(f.key);
    } else {
      JsonString.EncodeReads(f.key);
    }
    DatumReads(sh, f.value);
    PlainMember(Key(f), DatumText(sh, f.value));
    MemberText(Key(f), Utf8.CodePoints(f.key), DatumText(sh, f.value), Meaning(sh, f.value));
  }

  lemma {:induction false} FieldsRead(sh: Shared, fs: seq<Field>)
    requires !sh.colour && Sound(sh.platform) && AllWellMade(fs)
    ensures ReadAsMembers(FieldTexts(sh, fs), FieldPairs(sh, fs))
  {
    hide FieldMember, FieldPair, ReadsAsMember;
    if fs == [] {
    } else {
      FieldsRead(sh, fs[1..]);
      if fs[0].key == [] {
        assert [] + FieldTexts(sh, fs[1..]) == FieldTexts(sh, fs[1..]);
        assert [] + FieldPairs(sh, fs[1..]) == FieldPairs(sh, fs[1..]);
      } else {
        FieldReads(sh, fs[0]);
        OneReads(FieldMember(sh, fs[0]), FieldPair(sh, fs[0]));
        Together([FieldMember(sh, fs[0])], [FieldPair(sh, fs[0])], FieldTexts(sh, fs[1..]), FieldPairs(sh, fs[1..]));
      }
    }
  }

  /** A line without its final newline. */
  function Body(line: bytes): bytes
    requires line != []
  {
    line[..|line| - 1]
  }

  lemma BodyOf(text: bytes)
    ensures (text + [NL]) != [] && Body(text + [NL]) == text
  {
  }

  lemma LineIsList(log: Logger, e: Event)
    requires Consistent(log)
    ensures Line(log, e) ==
            [OPEN] + Join(HeadTexts(log.shared, e) + (FieldTexts(log.shared, log.fields + e.fields) + FootTexts(log))) +
            [CLOSE] + [NL]
  {
    var sh := log.shared;
    HeadIsJoined(sh, e);
    MiddleIsPrefix(log, e.fields);
    PrefixIsCommas(sh, log.fields + e.fields);
    FootIsCommas(log);
    hide Commas, Join, Head, Foot, Statics, FieldSet, HeadTexts, FieldTexts, FootTexts, Prefix;
    Assemble(Head(sh, e), HeadTexts(sh, e), FieldTexts(sh, log.fields + e.fields), FootTexts(log));
  }

  /**
   Every line made without colours from well-made fields is one JSON object
   with exactly the pairs of the event, in order; its only control byte, hence
   its only newline, is the last byte.
   */
  lemma LineReads(log: Logger, e: Event)
    requires Consistent(log) && !log.shared.colour && Sound(log.shared.platform)
    requires AllWellMade(log.fields) && AllWellMade(e.fields)
    requires log.shared.timestamps ==> JsonString.Trusted(e.stamp)
    ensures OneLine(Line(log, e)) && Document(Body(Line(log, e))) == Some(Pairs(log, e))
  {
    var sh, fs := log.shared, log.fields + e.fields;
    HeadReads(sh, e);
    FieldsRead(sh, fs);
    FootReads(log);
    Together(FieldTexts(sh, fs), FieldPairs(sh, fs), FootTexts(log), FootPairs(log));
    Together(HeadTexts(sh, e), HeadPairs(sh, e), FieldTexts(sh, fs) + FootTexts(log), FieldPairs(sh, fs) + FootPairs(log));
    LineIsList(log, e);
    HeadIsJoined(sh, e);
    hide HeadTexts, FieldTexts, FootTexts, HeadPairs, FieldPairs, FootPairs, Join, Line, Document, ReadAsMembers;
    ListReads(HeadTexts(sh, e) + (FieldTexts(sh, fs) + FootTexts(log)), Pairs(log, e), Line(log, e));
  }

  lemma {:induction false} ListReads(ts: seq<bytes>, ps: seq<Pair>, line: bytes)
    requires ts != [] && ReadAsMembers(ts, ps) && line == [OPEN] + Join(ts) + [CLOSE] + [NL]
    ensures OneLine(line) && Document(Body(line)) == Some(ps)
  {
    hide Document, Join;
    DocumentText(ts, ps);
    var text := [OPEN] + Join(ts) + [CLOSE];
    BodyOf(text);
    DocumentHasNoControls(text);
  }

  // ----- the kvfmt path -----

  predicate ValidKeys(fs: seq<Field>) {
    forall i :: 0 <= i < |fs| ==> Utf8.Valid(fs[i].key)
  }

  function KvPairs(sh: Shared, fs: seq<Field>): (ps: seq<Pair>)
    ensures |ps| == |fs| && forall i :: 0 <= i < |fs| ==> ps[i] == FieldPair(sh, fs[i])
  {
    if fs == [] then [] else [FieldPair(sh, fs[0])] + KvPairs(sh, fs[1..])
  }

  lemma {:induction false} ConstructedPairs(sh: Shared, fs: seq<Field>)
    requires AllKvMade(fs)
    ensures FieldPairs(sh, AllConstructed(fs)) == KvPairs(sh, fs)
  {
    if fs == [] {
    } else {
      ConstructedPairs(sh, fs[1..]);
      var gs := AllConstructed(fs);
      Tail(Constructed(fs[0]), AllConstructed(fs[1..]));
      assert FieldPair(sh, gs[0]) == FieldPair(sh, fs[0]);
    }
  }

  lemma {:induction false} FieldPairsConcat(sh: Shared, a: seq<Field>, b: seq<Field>)
    ensures FieldPairs(sh, a + b) == FieldPairs(sh, a) + FieldPairs(sh, b)
  {
    hide FieldPair;
    if a == [] {
      assert a + b == b;
    } else {
      FieldPairsConcat(sh, a[1..], b);
      assert (a + b)[1..] == a[1..] + b;
      Assoc(if a[0].key == [] then [] else [FieldPair(sh, a[0])], FieldPairs(sh, a[1..]), FieldPairs(sh, b));
    }
  }

  lemma {:induction false} KvTextsAt(sh: Shared, fs: seq<Field>)
    ensures |KvTexts(sh, fs)| == |fs|
    ensures forall i :: 0 <= i < |fs| ==> KvTexts(sh, fs)[i] == KvMember(sh, fs[i])
  {
    hide KvMember;
    if fs == [] {
    } else {
      KvTextsAt(sh, fs[1..]);
    }
  }

  lemma KvReads(sh: Shared, f: Field)
    requires !sh.colour && Sound(sh.platform) && KvMade(f) && Utf8.Valid(f.key)
    ensures ReadsAsMember(KvMember(sh, f), FieldPair(sh, f))
  {
    JsonString.QuoteReads(f.key);
    KvDatumReads(sh, f.value);
    PlainMember(JsonString.Quote(f.key), KvDatum(sh, f.value));
    MemberText(JsonString.Quote(f.key), Utf8.CodePoints(f.key), KvDatum(sh, f.value), Meaning(sh, f.value));
  }

  lemma KvDatumReads(sh: Shared, v: Datum)
    requires !sh.colour && Sound(sh.platform)
    ensures ReadsAs(KvDatum(sh, v), Meaning(sh, v))
  {
    if v.Str? {
      JsonString.MaybeTrustedReads(v.text);
    } else {
      DatumReads(sh, v);
    }
  }

  lemma KvFails(sh: Shared, f: Field)
    requires !sh.colour && KvMade(f) && !Utf8.Valid(f.key)
    ensures FailsAsMember(KvMember(sh, f))
  {
    PlainMember(JsonString.Quote(f.key), KvDatum(sh, f.value));
    forall rest
      ensures Member(KvMember(sh, f) + rest) == None
    {
      hide KvDatum;
      var k, v := JsonString.Quote(f.key), KvDatum(sh, f.value);
      Assoc(k, [COLON], v);
      Assoc(k, [COLON] + v, rest);
      JsonString.QuotedReads(f.key, [COLON] + v + rest);
      JsonString.RawReads(f.key, [COLON] + v + rest);
    }
  }

  lemma KvLineIsList(log: Logger, e: Event)
    requires Consistent(log)
    ensures KvLine(log, e) ==
            [OPEN] +
            Join(HeadTexts(log.shared, e) +
                 (FieldTexts(log.shared, log.fields) + KvTexts(log.shared, e.fields) + FootTexts(log))) +
            [CLOSE] + [NL]
  {
    var sh := log.shared;
    HeadIsJoined(sh, e);
    StaticsArePrefix(log);
    PrefixIsCommas(sh, log.fields);
    KvSetIsCommas(sh, e.fields);
    CommasConcat(FieldTexts(sh, log.fields), KvTexts(sh, e.fields));
    FootIsCommas(log);
    hide Commas, Join, Head, Foot, Statics, KvSet, HeadTexts, FieldTexts, KvTexts, FootTexts, Prefix;
    Assemble(Head(sh, e), HeadTexts(sh, e), FieldTexts(sh, log.fields) + KvTexts(sh, e.fields), FootTexts(log));
  }

  lemma {:induction false} KvAllRead(sh: Shared, fs: seq<Field>)
    requires !sh.colour && Sound(sh.platform) && AllKvMade(fs) && ValidKeys(fs)
    ensures ReadAsMembers(KvTexts(sh, fs), KvPairs(sh, fs))
  {
    KvTextsAt(sh, fs);
    forall i | 0 <= i < |fs|
      ensures ReadsAsMember(KvTexts(sh, fs)[i], KvPairs(sh, fs)[i])
    {
      KvReads(sh, fs[i]);
    }
  }

  lemma PairsOfConstructed(log: Logger, e: Event)
    requires AllKvMade(e.fields)
    ensures Pairs(log, e.(fields := AllConstructed(e.fields))) ==
            HeadPairs(log.shared, e) + (FieldPairs(log.shared, log.fields) + KvPairs(log.shared, e.fields) + FootPairs(log))
  {
    FieldPairsConcat(log.shared, log.fields, AllConstructed(e.fields));
    ConstructedPairs(log.shared, e.fields);
  }

  /** The texts up to the first key that is not well-formed read back; that one does not. */
  lemma SpoiltList(log: Logger, e: Event, bad: nat)
    requires !log.shared.colour && Sound(log.shared.platform) && AllWellMade(log.fields) && AllKvMade(e.fields)
    requires log.shared.timestamps ==> JsonString.Trusted(e.stamp)
    requires bad < |e.fields| && !Utf8.Valid(e.fields[bad].key) && ValidKeys(e.fields[..bad])
    ensures var sh := log.shared;
            Document([OPEN] + Join(HeadTexts(sh, e) +
              (FieldTexts(sh, log.fields) + KvTexts(sh, e.fields) + FootTexts(log))) + [CLOSE]) == None
  {
    var sh := log.shared;
    HeadReads(sh, e);
    FieldsRead(sh, log.fields);
    Together(HeadTexts(sh, e), HeadPairs(sh, e), FieldTexts(sh, log.fields), FieldPairs(sh, log.fields));
    KvTextsAt(sh, e.fields);
    KvFails(sh, e.fields[bad]);
    forall i | 0 <= i < bad
      ensures ReadsAsMember(KvMember(sh, e.fields[i]), FieldPair(sh, e.fields[i]))
    {
      assert Utf8.Valid(e.fields[..bad][i].key);
      KvReads(sh, e.fields[i]);
    }
    HeadNotEmpty(sh, e);
    hide HeadTexts, HeadPairs, FieldTexts, FieldPairs, KvTexts, KvMember, FieldPair, ReadsAsMember, FailsAsMember;
    Spoil(HeadTexts(sh, e), FieldTexts(sh, log.fields), KvTexts(sh, e.fields), FootTexts(log),
          HeadPairs(sh, e) + FieldPairs(sh, log.fields), KvPairs(sh, e.fields), bad);
  }

  lemma HeadNotEmpty(sh: Shared, e: Event)
    ensures HeadTexts(sh, e) != [] && HeadTexts(sh, e)[0] != []
  {
  }

  lemma {:induction false} Spoil(hs: seq<bytes>, ms: seq<bytes>, ks: seq<bytes>, fs: seq<bytes>,
                                 ps: seq<Pair>, qs: seq<Pair>, bad: nat)
    requires hs != [] && hs[0] != [] && ReadAsMembers(hs + ms, ps)
    requires bad < |ks| && |qs| == |ks| && FailsAsMember(ks[bad])
    requires forall i :: 0 <= i < bad ==> ReadsAsMember(ks[i], qs[i])
    ensures Document([OPEN] + Join(hs + (ms + ks + fs)) + [CLOSE]) == None
  {
    hide ReadsAsMember, FailsAsMember, Document, Join;
    var ts := hs + (ms + ks + fs);
    var n := |hs + ms|;
    var all := ps + qs + seq(|fs|, _ => Pair([], Json.Null));
    assert ts == hs + ms + (ks + fs);
    DocumentSpoilt(ts, all, n + bad);
  }

  lemma FirstBad(fs: seq<Field>) returns (bad: nat)
    requires !ValidKeys(fs)
    ensures bad < |fs| && !Utf8.Valid(fs[bad].key) && ValidKeys(fs[..bad])
  {
    if !Utf8.Valid(fs[0].key) {
      bad := 0;
    } else {
      var rest := FirstBad(fs[1..]);
      bad := rest + 1;
      assert forall i :: 1 <= i < bad ==> fs[i] == fs[1..][..rest][i - 1];
    }
  }

  // ----- no control bytes, whatever the keys -----

  predicate High(t: bytes) {
    forall i :: 0 <= i < |t| ==> t[i] >= 0x20
  }

  predicate AllHigh(ts: seq<bytes>) {
    forall i :: 0 <= i < |ts| ==> High(ts[i])
  }

  lemma OverIsHigh(t: bytes, rest: bytes)
    requires Over(t + rest, rest)
    ensures High(t)
  {
    assert forall i :: 0 <= i < |t| ==> t[i] == (t + rest)[i];
  }

  /** Text that reads back as a member, or as a value, holds no control byte. */
  lemma ReadIsHigh(t: bytes)
    ensures forall p | ReadsAsMember(t, p) :: High(t)
    ensures forall v | ReadsAs(t, v) :: High(t)
  {
    forall p | ReadsAsMember(t, p)
      ensures High(t)
    {
      assert Delimiter([CLOSE]);
      assert Member(t + [CLOSE]) == Some(Parsed(p, [CLOSE]));
      MemberOver(t + [CLOSE]);
      hide Member;
      OverIsHigh(t, [CLOSE]);
    }
    forall v | ReadsAs(t, v)
      ensures High(t)
    {
      assert Delimiter([CLOSE]);
      assert Value(t + [CLOSE]) == Some(Parsed(v, [CLOSE]));
      ValueOver(t + [CLOSE]);
      hide Value;
      OverIsHigh(t, [CLOSE]);
    }
  }

  lemma MembersAreHigh(ts: seq<bytes>, ps: seq<Pair>)
    requires ReadAsMembers(ts, ps)
    ensures AllHigh(ts)
  {
    hide ReadsAsMember, High;
    forall i | 0 <= i < |ts|
      ensures High(ts[i])
    {
      assert ReadsAsMember(ts[i], ps[i]);
      ReadIsHigh(ts[i]);
    }
  }

  lemma KvIsHigh(sh: Shared, f: Field)
    requires !sh.colour && Sound(sh.platform) && KvMade(f)
    ensures High(KvMember(sh, f))
  {
    KvDatumReads(sh, f.value);
    ReadIsHigh(KvDatum(sh, f.value));
    PlainMember(JsonString.Quote(f.key), KvDatum(sh, f.value));
    hide KvDatum, ReadsAs, Sound;
    assert High(JsonString.Quote(f.key));
  }

  lemma {:induction false} KvsAreHigh(sh: Shared, fs: seq<Field>)
    requires !sh.colour && Sound(sh.platform) && AllKvMade(fs)
    ensures AllHigh(KvTexts(sh, fs))
  {
    KvTextsAt(sh, fs);
    hide High, KvMember, KvMade, Sound;
    forall i | 0 <= i < |fs|
      ensures High(KvTexts(sh, fs)[i])
    {
      assert KvMade(fs[i]);
      KvIsHigh(sh, fs[i]);
    }
  }

  lemma HighConcat(a: bytes, b: bytes)
    requires High(a) && High(b)
    ensures High(a + b)
  {
  }

  lemma {:induction false} JoinIsHigh(ts: seq<bytes>)
    requires AllHigh(ts)
    ensures High(Join(ts))
  {
    if |ts| <= 1 {
    } else {
      JoinIsHigh(ts[1..]);
      hide High, Join;
      assert High(ts[0]);
      assert High([COMMA]) by { OneIsHigh(); }
      HighConcat(ts[0], [COMMA]);
      HighConcat(ts[0] + [COMMA], Join(ts[1..]));
      JoinStep(ts);
    }
  }

  lemma OneIsHigh()
    ensures High([COMMA]) && High([OPEN]) && High([CLOSE])
  {
  }

  lemma {:induction false} JoinStep(ts: seq<bytes>)
    requires |ts| > 1
    ensures Join(ts) == ts[0] + [COMMA] + Join(ts[1..])
  {
  }

  lemma HighTogether(a: seq<bytes>, b: seq<bytes>)
    requires AllHigh(a) && AllHigh(b)
    ensures AllHigh(a + b)
  {
    hide High;
  }

  /** What ends every line: the newline is its last byte and its only control byte. */
  predicate OneLine(line: bytes) {
    line != [] && line[|line| - 1] == NL && forall i :: 0 <= i < |line| - 1 ==> line[i] >= 0x20
  }

  lemma {:induction false} ListIsOneLine(ts: seq<bytes>)
    requires AllHigh(ts)
    ensures OneLine([OPEN] + Join(ts) + [CLOSE] + [NL])
  {
    JoinIsHigh(ts);
    OneIsHigh();
    HighConcat([OPEN], Join(ts));
    HighConcat([OPEN] + Join(ts), [CLOSE]);
    hide Join;
    var text := [OPEN] + Join(ts) + [CLOSE];
    assert forall i :: 0 <= i < |text| ==> (text + [NL])[i] == text[i];
  }

  lemma KvLineIsOneLine(log: Logger, e: Event)
    requires Consistent(log) && !log.shared.colour && Sound(log.shared.platform)
    requires AllWellMade(log.fields) && AllKvMade(e.fields)
    requires log.shared.timestamps ==> JsonString.Trusted(e.stamp)
    ensures OneLine(KvLine(log, e))
  {
    var sh := log.shared;
    HeadReads(sh, e);
    FieldsRead(sh, log.fields);
    FootReads(log);
    KvLineIsList(log, e);
    hide *;
    MembersAreHigh(HeadTexts(sh, e), HeadPairs(sh, e));
    MembersAreHigh(FieldTexts(sh, log.fields), FieldPairs(sh, log.fields));
    MembersAreHigh(FootTexts(log), FootPairs(log));
    KvsAreHigh(sh, e.fields);
    HighTogether(FieldTexts(sh, log.fields), KvTexts(sh, e.fields));
    HighTogether(FieldTexts(sh, log.fields) + KvTexts(sh, e.fields), FootTexts(log));
    HighTogether(HeadTexts(sh, e), FieldTexts(sh, log.fields) + KvTexts(sh, e.fields) + FootTexts(log));
    ListIsOneLine(HeadTexts(sh, e) + (FieldTexts(sh, log.fields) + KvTexts(sh, e.fields) + FootTexts(log)));
  }

  /**
   A line of the kvfmt path has one control byte, the newline at its end. It is
   one JSON object exactly when every key of the format is well-formed UTF-8, and
   then it reads as the same object as the line that the constructed fields give.
   */
  lemma KvLineReads(log: Logger, e: Event)
    requires Consistent(log) && !log.shared.colour && Sound(log.shared.platform)
    requires AllWellMade(log.fields) && AllKvMade(e.fields)
    requires log.shared.timestamps ==> JsonString.Trusted(e.stamp)
    ensures OneLine(KvLine(log, e)) && OneLine(Line(log, e.(fields := AllConstructed(e.fields))))
    ensures Document(Body(KvLine(log, e))) ==
            if ValidKeys(e.fields) then Document(Body(Line(log, e.(fields := AllConstructed(e.fields))))) else None
    ensures ValidKeys(e.fields) ==>
              Document(Body(KvLine(log, e))) == Some(Pairs(log, e.(fields := AllConstructed(e.fields))))
  {
    var sh, built := log.shared, e.(fields := AllConstructed(e.fields));
    KvLineIsOneLine(log, e);
    LineReads(log, built);
    KvLineIsList(log, e);
    PairsOfConstructed(log, e);
    if ValidKeys(e.fields) {
      HeadReads(sh, e);
      HeadNotEmpty(sh, e);
      FieldsRead(sh, log.fields);
      KvAllRead(sh, e.fields);
      FootReads(log);
      hide *;
      GoodList(HeadTexts(sh, e), FieldTexts(sh, log.fields), KvTexts(sh, e.fields), FootTexts(log),
               HeadPairs(sh, e), FieldPairs(sh, log.fields), KvPairs(sh, e.fields), FootPairs(log), KvLine(log, e));
    } else {
      var bad := FirstBad(e.fields);
      SpoiltList(log, e, bad);
      hide *;
      BodyOf([OPEN] + Join(HeadTexts(sh, e) +
        (FieldTexts(sh, log.fields) + KvTexts(sh, e.fields) + FootTexts(log))) + [CLOSE]);
    }
  }

  lemma {:induction false} GoodList(hs: seq<bytes>, ms: seq<bytes>, ks: seq<bytes>, fs: seq<bytes>,
                 hp: seq<Pair>, mp: seq<Pair>, kp: seq<Pair>, fp: seq<Pair>, line: bytes)
    requires hs != [] && ReadAsMembers(hs, hp) && ReadAsMembers(ms, mp) && ReadAsMembers(ks, kp) && ReadAsMembers(fs, fp)
    requires line == [OPEN] + Join(hs + (ms + ks + fs)) + [CLOSE] + [NL]
    ensures line != [] && Document(Body(line)) == Some(hp + (mp + kp + fp))
  {
    hide Join, Document, ReadAsMembers;
    Together(ms, mp, ks, kp);
    Together(ms + ks, mp + kp, fs, fp);
    Together(hs, hp, ms + ks + fs, mp + kp + fp);
    ListReads(hs + (ms + ks + fs), hp + (mp + kp + fp), line);
  }
}
