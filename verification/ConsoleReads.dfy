/**
 A reader for console lines without colours, and the round trip: it recovers the
 timestamp, the level, the message, every key and every value, strings exactly
 as they were logged.
 */
module ConsoleReads {
  import opened Bytes
  import opened Events
  import opened ConsoleLine
  import opened ConsoleString
  import ConsoleColour
  import JsonString
  import JsonText
  import Integers
  import Wording

  datatype Entry = Entry(key: bytes, text: bytes)

  /** The bytes before the first equals sign; a space or newline must not come first. */
  function ReadKey(t: bytes): (r: Option<Token>)
    ensures r.Some? ==> |r.value.rest| < |t|
  {
    if t == [] || t[0] == SPACE || t[0] == NL then None
    else if t[0] == EQUALS then Some(Token([], t[1..]))
    else
      match ReadKey(t[1..])
      case None => None
      case Some(k) => Some(Token([t[0]] + k.text, k.rest))
  }

  /** Fields up to the newline that ends the line. */
  function ReadFields(t: bytes): Option<seq<Entry>>
    decreases |t|
  {
    if t == [NL] then Some([])
    else if t == [] || t[0] != SPACE then None
    else
      match ReadKey(t[1..])
      case None => None
      case Some(k) =>
        match ReadValue(k.rest)
        case None => None
        case Some(v) =>
          match ReadFields(v.rest)
          case None => None
          case Some(es) => Some([Entry(k.text, v.text)] + es)
  }

  /** What a value should read back as. */
  function Shown(sh: Shared, v: Datum): bytes {
    match v
    case Null => Ascii("null")
    case Str(text, _, _) => text
    case Signed(i) => Integers.SignedText(i)
    case Unsigned(u) => Integers.SignedText(u)
    case Double(d) =>
      if d.Finite? then sh.platform.double(d.bits)
      else Ascii(if d.NaN? then "nan" else if d.negative then "-inf" else "inf")
    case Bool(b) => Ascii(if b then "true" else "false")
    case Pointer(a) => sh.platform.pointer(a)
    case Blob(data) => Hex(data)
    case Time(t) => sh.platform.time(t)
    case Duration(s) => sh.platform.duration(s)
    case Errno(code) => sh.platform.errno(code)
  }

  /** The fixed words of values, spelt out. */
  lemma WordsAreSpelt()
    ensures JsonText.NULL_TEXT == Ascii("null") && JsonText.TRUE_TEXT == Ascii("true")
    ensures JsonText.FALSE_TEXT == Ascii("false")
    ensures NAN_TEXT == Ascii("nan") && INF_TEXT == Ascii("inf") && [MINUS] + INF_TEXT == Ascii("-inf")
  {
  }

  lemma WordsAreWords()
    ensures NoSpecials(JsonText.NULL_TEXT) && NoSpecials(JsonText.TRUE_TEXT) && NoSpecials(JsonText.FALSE_TEXT)
    ensures NoSpecials(NAN_TEXT) && NoSpecials(INF_TEXT) && NoSpecials([MINUS] + INF_TEXT)
  {
  }

  function Entries(sh: Shared, fs: seq<Field>): seq<Entry> {
    if fs == [] then []
    else (if fs[0].key == [] then [] else [Entry(fs[0].key, Shown(sh, fs[0].value))]) + Entries(sh, fs[1..])
  }

  /** The library's texts for numbers, addresses and times are single words. */
  ghost predicate Words(p: Platform) {
    (forall b :: NoSpecials(p.double(b))) && (forall a :: NoSpecials(p.pointer(a))) &&
    (forall t :: NoSpecials(p.time(t))) && (forall s :: NoSpecials(p.duration(s)))
  }

  /** Keys that a reader can tell from their surroundings. */
  predicate WordKeys(fs: seq<Field>) {
    forall i :: 0 <= i < |fs| ==> NoSpecials(fs[i].key)
  }

  lemma {:induction false} DecimalIsWord(n: nat)
    ensures NoSpecials(Integers.Decimal(n)) && NoSpecials([MINUS] + Integers.Decimal(n))
  {
    Integers.DecimalDenotes(n);
  }

  lemma WordReads(t: bytes, rest: bytes)
    requires NoSpecials(t) && Boundary(rest)
    ensures ReadValue(t + rest) == Some(Token(t, rest))
  {
    ValueReads(t, rest);
  }

  lemma {:induction false} HexIsWord(data: bytes)
    ensures NoSpecials(Hex(data))
  {
    if data == [] {
    } else {
      HexIsWord(data[1..]);
      assert forall n: int | 0 <= n < 16 :: !NeedsQuotes(HexDigit(n));
    }
  }

  lemma {:induction false} EscapeWord(s: bytes)
    requires NoSpecials(s)
    ensures Escape(s) == s
  {
    if s == [] {
    } else {
      EscapeWord(s[1..]);
      assert EscapeByte(s[0]) == [s[0]];
    }
  }

  lemma {:induction false} QuotedReads(s: bytes, rest: bytes)
    ensures ReadValue([QUOTE] + Escape(s) + [QUOTE] + rest) == Some(Token(s, rest))
  {
    ReadEscaped(s, rest);
    hide ReadQuoted, Escape;
    var inner := Escape(s) + ([QUOTE] + rest);
    Assoc([QUOTE], Escape(s), [QUOTE]);
    Assoc([QUOTE], Escape(s) + [QUOTE], rest);
    Assoc(Escape(s), [QUOTE], rest);
    Tail(QUOTE, inner);
  }

  lemma DatumReads(sh: Shared, v: Datum, rest: bytes)
    requires Words(sh.platform) && Boundary(rest) && (v.Str? && v.simple ==> Simple(v.text))
    ensures ReadValue(ConsoleLine.DatumText(sh, v) + rest) == Some(Token(Shown(sh, v), rest))
  {
    hide ReadValue, Escape, Value, Ascii, NoSpecials;
    WordsAreSpelt();
    WordsAreWords();
    match v
    case Str(text, _, simple) =>
      ValueReads(text, rest);
      if simple {
        SimpleIsValue(text);
      }
    case Blob(data) =>
      HexIsWord(data);
      EscapeWord(Hex(data));
      QuotedReads(Hex(data), rest);
    case Errno(code) => ValueReads(sh.platform.errno(code), rest);
    case Signed(i) =>
      DecimalIsWord(if i < 0 then -i else i);
      WordReads(Integers.SignedText(i), rest);
    case Unsigned(u) =>
      DecimalIsWord(u);
      WordReads(Integers.Decimal(u), rest);
    case Double(d) => WordReads(DoubleText(sh, d), rest);
    case Null => WordReads(JsonText.NULL_TEXT, rest);
    case Bool(b) => WordReads(if b then JsonText.TRUE_TEXT else JsonText.FALSE_TEXT, rest);
    case Pointer(a) => WordReads(sh.platform.pointer(a), rest);
    case Time(t) => WordReads(sh.platform.time(t), rest);
    case Duration(s) => WordReads(sh.platform.duration(s), rest);
  }

  lemma {:induction false} KeyReads(key: bytes, rest: bytes)
    requires NoSpecials(key)
    ensures ReadKey(key + ([EQUALS] + rest)) == Some(Token(key, rest))
  {
    if key == [] {
      assert key + ([EQUALS] + rest) == [EQUALS] + rest;
      Tail(EQUALS, rest);
    } else {
      KeyReads(key[1..], rest);
      assert (key + ([EQUALS] + rest))[1..] == key[1..] + ([EQUALS] + rest);
      assert [key[0]] + key[1..] == key;
    }
  }

  lemma {:induction false} FieldReads(sh: Shared, f: Field, rest: bytes)
    requires !sh.colour && Words(sh.platform) && WellMade(f) && f.key != [] && NoSpecials(f.key) && Boundary(rest)
    ensures ReadFields(FieldText(sh, f) + rest) ==
            match ReadFields(rest)
            case None => None
            case Some(es) => Some([Entry(f.key, Shown(sh, f.value))] + es)
  {
    var value := ConsoleLine.DatumText(sh, f.value);
    ConsoleColour.PlainField(sh, f);
    DatumReads(sh, f.value, rest);
    KeyReads(f.key, value + rest);
    hide ReadValue, ReadKey, FieldText, ConsoleLine.DatumText, Shown, Words, WellMade;
    var after := f.key + ([EQUALS] + (value + rest));
    Assoc([SPACE], f.key + [EQUALS], value);
    Assoc([SPACE], f.key + [EQUALS] + value, rest);
    Assoc(f.key, [EQUALS], value);
    Assoc(f.key, [EQUALS] + value, rest);
    Assoc([EQUALS], value, rest);
    assert FieldText(sh, f) + rest == [SPACE] + after;
    Tail(SPACE, after);
  }

  lemma {:induction false} PrefixBoundary(sh: Shared, fs: seq<Field>)
    requires !sh.colour
    ensures Boundary(Prefix(sh, fs) + [NL])
  {
    if fs == [] {
    } else {
      hide FieldText;
      PrefixBoundary(sh, fs[1..]);
      if fs[0].key == [] {
        NoKey(sh, fs[0]);
        assert [] + Prefix(sh, fs[1..]) == Prefix(sh, fs[1..]);
      } else {
        ConsoleColour.PlainField(sh, fs[0]);
      }
    }
  }

  lemma NoKey(sh: Shared, f: Field)
    requires f.key == []
    ensures FieldText(sh, f) == []
  {
  }

  /**
   The fields of a line read back as exactly their keys and values, in order,
   fields without a key dropped, whatever bytes the values hold.
   */
  lemma {:induction false} FieldsRead(sh: Shared, fs: seq<Field>)
    requires !sh.colour && Words(sh.platform) && AllWellMade(fs) && WordKeys(fs)
    ensures ReadFields(Prefix(sh, fs) + [NL]) == Some(Entries(sh, fs))
  {
    hide FieldText, ReadFields, Shown, Words, WellMade;
    if fs == [] {
      assert Prefix(sh, fs) + [NL] == [NL];
      EndReads();
    } else {
      FieldsRead(sh, fs[1..]);
      var rest := Prefix(sh, fs[1..]) + [NL];
      Assoc(FieldText(sh, fs[0]), Prefix(sh, fs[1..]), [NL]);
      if fs[0].key == [] {
        NoKey(sh, fs[0]);
        assert [] + rest == rest;
        assert [] + Entries(sh, fs[1..]) == Entries(sh, fs[1..]);
      } else {
        PrefixBoundary(sh, fs[1..]);
        FieldReads(sh, fs[0], rest);
      }
    }
  }

  lemma EndReads()
    ensures ReadFields([NL]) == Some([])
  {
  }

  // ----- a whole line -----

  /** A line: its timestamp, the label of its level, its message and its fields. */
  datatype Record = Record(stamp: bytes, level: bytes, message: bytes, fields: seq<Entry>)

  /** Where `b` first stands, or the length of the text. */
  function First(t: bytes, b: byte): (n: nat)
    ensures n <= |t| && b !in t[..n] && (n < |t| ==> t[n] == b)
  {
    if t == [] || t[0] == b then 0
    else
      var n := First(t[1..], b);
      assert t[..n + 1] == [t[0]] + t[1..][..n];
      n + 1
  }

  function LastSpace(t: bytes): (n: nat)
    ensures n <= |t|
  {
    if t == [] then 0 else if t[|t| - 1] == SPACE then |t| - 1 else LastSpace(t[..|t| - 1])
  }

  /** Where the fields start: at the space before the first key, or at the newline if there is no equals sign. */
  function FieldsStart(t: bytes): (n: nat)
    ensures n <= |t| && EQUALS !in t[..n]
  {
    var k := First(t, EQUALS);
    if k < |t| then
      var n := LastSpace(t[..k]);
      assert t[..n] == t[..k][..n];
      n
    else if t == [] then 0 else |t| - 1
  }

  /** What stands between the label and the fields. */
  function ReadPart(t: bytes): (m: Option<bytes>)
    ensures m.Some? && EQUALS !in t ==> BACKSLASH !in m.value && EQUALS !in m.value
  {
    if t == [] then Some([]) else if t[0] != SPACE then None else ReadMessage(t[1..])
  }

  function ReadEvent(t: bytes): (r: Option<Record>)
    ensures r.Some? ==> BACKSLASH !in r.value.message && EQUALS !in r.value.message
  {
    if |t| < 3 then None
    else
      var n := FieldsStart(t[3..]);
      match ReadPart(t[3..][..n])
      case None => None
      case Some(m) =>
        match ReadFields(t[3..][n..])
        case None => None
        case Some(es) => Some(Record([], t[..3], m, es))
  }

  function ReadLine(t: bytes, stamped: bool): (r: Option<Record>)
    ensures r.Some? ==> BACKSLASH !in r.value.message && EQUALS !in r.value.message
  {
    if !stamped then ReadEvent(t)
    else
      var n := First(t, SPACE);
      if n == |t| then None
      else
        match ReadEvent(t[n + 1..])
        case None => None
        case Some(r) => Some(r.(stamp := t[..n]))
  }

  /** What a line should read back as: the level field, if it is shown, comes last. */
  function RecordOf(log: Logger, e: Event): Record {
    Record(if log.shared.timestamps then e.stamp else [], Ascii(Wording.Label(e.level)), e.msg,
           Entries(log.shared, log.fields + e.fields) +
           if log.includeLevel then [Entry(Ascii("loglevel"), Ascii(Wording.Name(log.minLevel)))] else [])
  }

  lemma {:induction false} FirstOf(a: bytes, b: byte, rest: bytes)
    requires b !in a
    ensures First(a + ([b] + rest), b) == |a|
  {
    if a == [] {
      assert a + ([b] + rest) == [b] + rest;
    } else {
      FirstOf(a[1..], b, rest);
      assert (a + ([b] + rest))[1..] == a[1..] + ([b] + rest);
    }
  }

  lemma {:induction false} LastSpaceOf(a: bytes, key: bytes)
    requires NoSpecials(key)
    ensures LastSpace(a + [SPACE] + key) == |a|
  {
    var t := a + [SPACE] + key;
    if key == [] {
    } else {
      LastSpaceOf(a, key[..|key| - 1]);
      assert t[..|t| - 1] == a + [SPACE] + key[..|key| - 1];
      assert t[|t| - 1] == key[|key| - 1];
    }
  }

  /** Fields as text: nothing, or a space and a key that can be told from its surroundings. */
  ghost predicate FieldsShape(f: bytes) {
    f == [] || exists key, rest :: f == [SPACE] + key + ([EQUALS] + rest) && NoSpecials(key)
  }

  lemma StartOfFields(m: bytes, f: bytes)
    requires EQUALS !in m && FieldsShape(f)
    ensures FieldsStart(m + (f + [NL])) == |m|
  {
    var t := m + (f + [NL]);
    if f == [] {
      assert t == m + [NL];
    } else {
      var key, rest :| f == [SPACE] + key + ([EQUALS] + rest) && NoSpecials(key);
      var front := m + [SPACE] + key;
      assert t == front + ([EQUALS] + (rest + [NL]));
      assert EQUALS !in front;
      FirstOf(front, EQUALS, rest + [NL]);
      assert t[..|front|] == front;
      LastSpaceOf(m, key);
    }
  }

  lemma {:induction false} PrefixShape(sh: Shared, fs: seq<Field>)
    requires !sh.colour && WordKeys(fs)
    ensures FieldsShape(Prefix(sh, fs))
  {
    if fs == [] {
    } else {
      hide FieldText, NoSpecials, FieldsShape, ConsoleLine.DatumText;
      PrefixShape(sh, fs[1..]);
      var f, rest := fs[0], Prefix(sh, fs[1..]);
      if f.key == [] {
        NoKey(sh, f);
        assert [] + rest == rest;
      } else {
        ConsoleColour.PlainField(sh, f);
        ShapeOf(f.key, ConsoleLine.DatumText(sh, f.value), rest);
      }
    }
  }

  lemma ShapeOf(key: bytes, value: bytes, rest: bytes)
    requires NoSpecials(key)
    ensures FieldsShape([SPACE] + (key + [EQUALS]) + value + rest)
  {
    hide NoSpecials;
    Assoc([SPACE], key, [EQUALS]);
    Assoc([SPACE] + key, [EQUALS], value);
    Assoc([SPACE] + key, [EQUALS] + value, rest);
    Assoc([EQUALS], value, rest);
  }

  lemma {:induction false} EventReads(level: bytes, m: bytes, f: bytes, es: seq<Entry>, msg: bytes)
    requires |level| == 3 && EQUALS !in m && FieldsShape(f) && ReadPart(m) == Some(msg) && ReadFields(f + [NL]) == Some(es)
    ensures ReadEvent(level + (m + (f + [NL]))) == Some(Record([], level, msg, es))
  {
    hide FieldsStart, ReadPart, ReadFields, FieldsShape;
    StartOfFields(m, f);
    Suffix(level, m + (f + [NL]));
    Suffix(m, f + [NL]);
  }

  lemma StampedReads(stamp: bytes, t: bytes)
    requires SPACE !in stamp
    ensures ReadLine(stamp + ([SPACE] + t), true) ==
            match ReadEvent(t)
            case None => None
            case Some(r) => Some(r.(stamp := stamp))
  {
    hide ReadEvent;
    FirstOf(stamp, SPACE, t);
    Suffix(stamp, [SPACE] + t);
    assert (stamp + ([SPACE] + t))[|stamp| + 1..] == t;
  }

  /** The fields of a line with the level field among them. */
  function AllFields(log: Logger, e: Event): seq<Field> {
    log.fields + e.fields + if log.includeLevel then [LevelField(log.minLevel)] else []
  }

  function MessagePart(msg: bytes): bytes {
    if msg == [] then [] else [SPACE] + Message(msg)
  }

  lemma {:induction false} OneField(sh: Shared, f: Field)
    ensures Prefix(sh, [f]) == FieldText(sh, f)
  {
    hide FieldText;
    assert [f][1..] == [];
  }

  lemma FieldsAndFoot(log: Logger, e: Event)
    requires Consistent(log) && !log.shared.colour
    ensures Statics(log) + Prefix(log.shared, e.fields) + Foot(log) == Prefix(log.shared, AllFields(log, e)) + [NL]
  {
    hide Prefix, FieldText, LevelField;
    var sh, fs := log.shared, log.fields + e.fields;
    MiddleIsPrefix(log, e.fields);
    if log.includeLevel {
      PrefixConcat(sh, fs, [LevelField(log.minLevel)]);
      OneField(sh, LevelField(log.minLevel));
      Ending(Prefix(sh, fs), FieldText(sh, LevelField(log.minLevel)));
    } else {
      assert fs + [] == fs;
      Ending(Prefix(sh, fs), []);
      assert Prefix(sh, fs) + [] == Prefix(sh, fs);
    }
  }

  lemma Ending(a: bytes, b: bytes)
    ensures a + (b + [] + [NL]) == a + b + [NL]
  {
  }

  lemma HeadIsSpelt(sh: Shared, e: Event)
    requires !sh.colour
    ensures Head(sh, e) ==
            (if sh.timestamps then e.stamp + [SPACE] else []) + Ascii(Wording.Label(e.level)) + MessagePart(e.msg)
  {
    hide Message, Ascii;
    Wording.LabelIsSpelt(e.level);
    assert [] + e.stamp == e.stamp && [SPACE] + [] == [SPACE];
  }

  /**
   A line without colours: the timestamp and a space, if there is one, the label
   of the level, the message after a space, if there is one, the fields, and a
   newline. A printable message stands as it is.
   */
  lemma LineIsSpelt(log: Logger, e: Event)
    requires Consistent(log) && !log.shared.colour
    ensures Line(log, e) ==
            (if log.shared.timestamps then e.stamp + [SPACE] else []) + Ascii(Wording.Label(e.level)) +
            (MessagePart(e.msg) + (Prefix(log.shared, AllFields(log, e)) + [NL]))
    ensures Printable(e.msg) && e.msg != [] ==> MessagePart(e.msg) == [SPACE] + e.msg
  {
    hide Head, Statics, Prefix, Foot, AllFields, Message;
    HeadIsSpelt(log.shared, e);
    FieldsAndFoot(log, e);
    MessageVerbatim(e.msg);
    var front := (if log.shared.timestamps then e.stamp + [SPACE] else []) + Ascii(Wording.Label(e.level));
    Assoc(front + MessagePart(e.msg), Statics(log) + Prefix(log.shared, e.fields), Foot(log));
    Assoc(front, MessagePart(e.msg), Prefix(log.shared, AllFields(log, e)) + [NL]);
  }

  lemma AllFieldsRead(log: Logger, e: Event)
    requires !log.shared.colour && Words(log.shared.platform)
    requires AllWellMade(log.fields) && AllWellMade(e.fields) && WordKeys(log.fields) && WordKeys(e.fields)
    ensures WordKeys(AllFields(log, e))
    ensures ReadFields(Prefix(log.shared, AllFields(log, e)) + [NL]) == Some(RecordOf(log, e).fields)
  {
    var f := LevelField(log.minLevel);
    ConsoleColour.LevelFieldMade(log.minLevel);
    LevelFieldShown(log.shared, log.minLevel);
    hide WellMade, NoSpecials, Words, ReadFields, Shown, LevelField, Prefix, Ascii;
    FieldsRead(log.shared, AllFields(log, e));
    if log.includeLevel {
      EntriesConcat(log.shared, log.fields + e.fields, [f]);
    } else {
      EntriesConcat(log.shared, log.fields + e.fields, []);
    }
  }

  lemma {:induction false} LevelFieldShown(sh: Shared, l: Level)
    ensures Entries(sh, [LevelField(l)]) == [Entry(Ascii("loglevel"), Ascii(Wording.Name(l)))]
    ensures NoSpecials(LevelField(l).key)
  {
    Wording.NameIsSpelt(l);
    assert LOGLEVEL == Ascii("loglevel");
    hide Ascii, LevelText;
    assert [LevelField(l)][1..] == [];
  }

  lemma {:induction false} EntriesConcat(sh: Shared, a: seq<Field>, b: seq<Field>)
    ensures Entries(sh, a + b) == Entries(sh, a) + Entries(sh, b)
  {
    hide Shown;
    if a == [] {
      assert a + b == b;
    } else {
      EntriesConcat(sh, a[1..], b);
      assert (a + b)[1..] == a[1..] + b;
      Assoc(if a[0].key == [] then [] else [Entry(a[0].key, Shown(sh, a[0].value))], Entries(sh, a[1..]), Entries(sh, b));
    }
  }

  lemma MessagePartReads(msg: bytes)
    requires BACKSLASH !in msg && EQUALS !in msg
    ensures EQUALS !in MessagePart(msg) && ReadPart(MessagePart(msg)) == Some(msg)
  {
    hide Message, ReadMessage;
    MessageReads(msg);
    MessageHasNoEquals(msg);
    Tail(SPACE, Message(msg));
  }

  /**
   A line without colours reads back as its timestamp, the label of its level,
   its message, and the fields of the logger and of the call in order with the
   level field last, exactly when the message has neither a backslash nor an
   equals sign: the message is not quoted, so those run into what follows.
   */
  lemma LineReads(log: Logger, e: Event)
    requires Consistent(log) && !log.shared.colour && Words(log.shared.platform)
    requires AllWellMade(log.fields) && AllWellMade(e.fields) && WordKeys(log.fields) && WordKeys(e.fields)
    requires log.shared.timestamps ==> SPACE !in e.stamp
    ensures ReadLine(Line(log, e), log.shared.timestamps) == Some(RecordOf(log, e)) <==>
            BACKSLASH !in e.msg && EQUALS !in e.msg
  {
    if BACKSLASH !in e.msg && EQUALS !in e.msg {
      hide Line, Prefix, ReadEvent, ReadFields, ReadPart, MessagePart, AllFields, FieldsShape, Entries, Words, AllWellMade;
      hide Ascii;
      LineIsSpelt(log, e);
      AllFieldsRead(log, e);
      PrefixShape(log.shared, AllFields(log, e));
      MessagePartReads(e.msg);
      var level, m, f := Ascii(Wording.Label(e.level)), MessagePart(e.msg), Prefix(log.shared, AllFields(log, e));
      EventReads(level, m, f, RecordOf(log, e).fields, e.msg);
      var t := level + (m + (f + [NL]));
      if log.shared.timestamps {
        Assoc(e.stamp + [SPACE], level, m + (f + [NL]));
        Assoc(e.stamp, [SPACE], t);
        StampedReads(e.stamp, t);
      } else {
        assert [] + level == level;
      }
    }
  }

  lemma {:induction false} ConstructedEntries(sh: Shared, fs: seq<Field>)
    requires AllKvMade(fs)
    ensures Entries(sh, AllConstructed(fs)) == Entries(sh, fs) && (WordKeys(fs) ==> WordKeys(AllConstructed(fs)))
  {
    hide NoSpecials, JsonString.AsciiTrusted;
    if fs == [] {
    } else {
      ConstructedEntries(sh, fs[1..]);
      var g := Constructed(fs[0]);
      Tail(g, AllConstructed(fs[1..]));
      assert g.key == fs[0].key && Shown(sh, g.value) == Shown(sh, fs[0].value);
    }
  }

  /** The same for a line of the kvfmt path. */
  lemma KvLineReads(log: Logger, e: Event)
    requires Consistent(log) && !log.shared.colour && Words(log.shared.platform)
    requires AllWellMade(log.fields) && AllKvMade(e.fields) && WordKeys(log.fields) && WordKeys(e.fields)
    requires log.shared.timestamps ==> SPACE !in e.stamp
    ensures ReadLine(KvLine(log, e), log.shared.timestamps) == Some(RecordOf(log, e)) <==>
            BACKSLASH !in e.msg && EQUALS !in e.msg
  {
    hide Line, KvLine, ReadLine, Shown, Words, WordKeys, AllWellMade, AllKvMade;
    var built := e.(fields := AllConstructed(e.fields));
    ConsoleColour.KvLineIsLine(log, e);
    ConstructedEntries(log.shared, e.fields);
    LineReads(log, built);
    EntriesConcat(log.shared, log.fields, e.fields);
    EntriesConcat(log.shared, log.fields, built.fields);
  }

  // ----- what can be told apart -----

  lemma Cancel(s: bytes, a: bytes, b: bytes, x: bytes, y: bytes)
    requires s + a + x == s + b + y && (|a| == |b| || x == y)
    ensures a == b
  {
    assert |s + a + x| == |s| + |a| + |x| && |s + b + y| == |s| + |b| + |y|;
    assert a == (s + a + x)[|s|..|s| + |a|];
    assert b == (s + b + y)[|s|..|s| + |b|];
  }

  /** Events at different levels give different lines. */
  lemma LevelsShow(log: Logger, e: Event, f: Event)
    requires Consistent(log) && !log.shared.colour
    requires f == e.(level := f.level) && Slot(e.level) != Slot(f.level)
    ensures Line(log, e) != Line(log, f)
  {
    hide Line, Prefix, MessagePart, AllFields, Ascii;
    LineIsSpelt(log, e);
    LineIsSpelt(log, f);
    Wording.WordsDiffer(e.level, f.level);
    var s := if log.shared.timestamps then e.stamp + [SPACE] else [];
    if Line(log, e) == Line(log, f) {
      Cancel(s, Ascii(Wording.Label(e.level)), Ascii(Wording.Label(f.level)),
             MessagePart(e.msg) + (Prefix(log.shared, AllFields(log, e)) + [NL]),
             MessagePart(f.msg) + (Prefix(log.shared, AllFields(log, f)) + [NL]));
    }
  }

  /** So do different messages, if both are printable or neither has a backslash. */
  lemma MessagesShow(log: Logger, e: Event, f: Event)
    requires Consistent(log) && !log.shared.colour && f == e.(msg := f.msg) && e.msg != f.msg
    requires (Printable(e.msg) && Printable(f.msg)) || (BACKSLASH !in e.msg && BACKSLASH !in f.msg)
    ensures Line(log, e) != Line(log, f)
  {
    hide Line, Prefix, Ascii, Printable;
    LineIsSpelt(log, e);
    LineIsSpelt(log, f);
    MessagesDiffer(e.msg, f.msg);
    hide Message;
    assert AllFields(log, e) == AllFields(log, f);
    var s := (if log.shared.timestamps then e.stamp + [SPACE] else []) + Ascii(Wording.Label(e.level));
    var tail := Prefix(log.shared, AllFields(log, e)) + [NL];
    if Line(log, e) == Line(log, f) {
      Assoc(s, MessagePart(e.msg), tail);
      Assoc(s, MessagePart(f.msg), tail);
      Cancel(s, MessagePart(e.msg), MessagePart(f.msg), tail, tail);
      Tail(SPACE, Message(e.msg));
      Tail(SPACE, Message(f.msg));
    }
  }

  /** A field and the same words at the end of the message cannot be told apart. */
  lemma MessageRunsOn(log: Logger, e: Event, key: bytes, text: bytes)
    requires Consistent(log) && !log.shared.colour && log.fields == [] && e.msg != [] && Printable(e.msg)
    requires key != [] && NoSpecials(key) && NoSpecials(text)
    ensures Line(log, e.(fields := [StrField(key, text)] + e.fields)) ==
            Line(log, e.(msg := e.msg + ([SPACE] + (key + [EQUALS]) + text)))
  {
    hide Line, Prefix, FieldText, NoSpecials, Printable, Ascii, MessagePart, StrField;
    var words, field := [SPACE] + (key + [EQUALS]) + text, StrField(key, text);
    var f, g := e.(fields := [field] + e.fields), e.(msg := e.msg + words);
    WordsOfField(log.shared, key, text);
    WordsArePrintable(e.msg, key, text);
    LineIsSpelt(log, f);
    LineIsSpelt(log, g);
    assert AllFields(log, f) == [field] + AllFields(log, g);
    hide AllFields;
    PrefixConcat(log.shared, [field], AllFields(log, g));
    OneField(log.shared, field);
    var rest := Prefix(log.shared, AllFields(log, g)) + [NL];
    Assoc(words, Prefix(log.shared, AllFields(log, g)), [NL]);
    Assoc([SPACE], e.msg, words);
    Assoc([SPACE] + e.msg, words, rest);
  }

  lemma WordsOfField(sh: Shared, key: bytes, text: bytes)
    requires !sh.colour && key != [] && NoSpecials(text)
    ensures FieldText(sh, StrField(key, text)) == [SPACE] + (key + [EQUALS]) + text
  {
    hide FieldText, JsonString.AsciiTrusted;
    ConsoleColour.PlainField(sh, StrField(key, text));
  }

  lemma WordsArePrintable(m: bytes, key: bytes, text: bytes)
    requires Printable(m) && NoSpecials(key) && NoSpecials(text)
    ensures Printable(m + ([SPACE] + (key + [EQUALS]) + text))
  {
    assert Printable(key) && Printable(text);
  }
}
