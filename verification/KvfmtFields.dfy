/**
 From a format and its arguments to a line: `pslog_materialize_kvfmt_fields`,
 `pslog_should_log` and the choices of `pslog_vlogf_impl` (src/pslog.c), and the
 law that logging by format and logging constructed fields say the same.
 */
module KvfmtFields {
  import opened Bytes
  import opened Events
  import Kvfmt
  import Utf8
  import Integers
  import JsonString
  import JsonText
  import JsonLine
  import JsonReads
  import ConsoleString
  import ConsoleLine
  import ConsoleColour
  import ConsoleReads
  import Wording

  /** A variadic argument; a string may be the null pointer. */
  datatype Arg =
    | StringValue(text: Option<bytes>)
    | SignedValue(i: int)
    | UnsignedValue(u: nat)
    | DoubleValue(d: Real)
    | PointerValue(address: nat)
    | BoolValue(flag: int)

  predicate Fits(t: Kvfmt.ArgType, a: Arg) {
    match t
    case StringArg => a.StringValue?
    case IntArg => a.SignedValue? && -0x8000_0000 <= a.i <= 0x7fff_ffff
    case LongArg => a.SignedValue? && Integers.I64_MIN <= a.i <= Integers.I64_MAX
    case UnsignedArg => a.UnsignedValue? && a.u <= 0xffff_ffff
    case UnsignedLongArg => a.UnsignedValue? && a.u <= Integers.U64_MAX
    case DoubleArg => a.DoubleValue?
    case PointerArg => a.PointerValue?
    case BoolArg => a.BoolValue?
    case ErrnoArg => false
  }

  /** The arguments a format calls for, in order; `%m` takes none. */
  predicate Matching(specs: seq<Kvfmt.Spec>, args: seq<Arg>) {
    if specs == [] then args == []
    else if specs[0].arg.ErrnoArg? then Matching(specs[1..], args)
    else args != [] && Fits(specs[0].arg, args[0]) && Matching(specs[1..], args[1..])
  }

  function DatumOf(a: Arg, console: bool): (v: Datum)
  {
    match a
    case StringValue(text) =>
      var s := if text.Some? then text.value else [];
      Str(s, JsonString.AsciiTrusted(s), console && ConsoleString.Simple(s))
    case SignedValue(i) => Signed(i)
    case UnsignedValue(u) => Unsigned(u)
    case DoubleValue(d) => Double(d)
    case PointerValue(address) => Pointer(address)
    case BoolValue(flag) => Bool(flag != 0)
  }

  function Fields(specs: seq<Kvfmt.Spec>, args: seq<Arg>, errno: int, console: bool): (fs: seq<Field>)
    requires Matching(specs, args)
    ensures |fs| == |specs| && forall i :: 0 <= i < |fs| ==> fs[i].key == specs[i].key
  {
    if specs == [] then []
    else if specs[0].arg.ErrnoArg? then
      [Field(specs[0].key, true, Errno(errno))] + Fields(specs[1..], args, errno, console)
    else
      [Field(specs[0].key, true, DatumOf(args[0], console))] + Fields(specs[1..], args[1..], errno, console)
  }

  /** The field of one specification, made from the next argument if it takes one. */
  function FieldOf(spec: Kvfmt.Spec, args: seq<Arg>, next: nat, errno: int, console: bool): Field
    requires !spec.arg.ErrnoArg? ==> next < |args|
  {
    Field(spec.key, true, if spec.arg.ErrnoArg? then Errno(errno) else DatumOf(args[next], console))
  }

  lemma {:induction false} FieldsStep(specs: seq<Kvfmt.Spec>, args: seq<Arg>, slot: nat, next: nat, errno: int, console: bool)
    requires slot < |specs| && next <= |args| && Matching(specs[slot..], args[next..])
    ensures !specs[slot].arg.ErrnoArg? ==> next < |args|
    ensures var next' := if specs[slot].arg.ErrnoArg? then next else next + 1;
            Matching(specs[slot + 1..], args[next'..]) &&
            Fields(specs[slot..], args[next..], errno, console) ==
            [FieldOf(specs[slot], args, next, errno, console)] + Fields(specs[slot + 1..], args[next'..], errno, console)
  {
    assert specs[slot..][1..] == specs[slot + 1..];
    if !specs[slot].arg.ErrnoArg? {
      assert args[next..][1..] == args[next + 1..];
    }
  }

  /** `pslog_materialize_kvfmt_fields` */
  method Materialize(specs: seq<Kvfmt.Spec>, args: seq<Arg>, errno: int, console: bool) returns (fields: seq<Field>)
    requires Matching(specs, args)
    ensures fields == Fields(specs, args, errno, console)
  {
    hide Matching, Fields, FieldOf;
    fields := [];
    var next := 0;
    assert specs[0..] == specs && args[0..] == args;
    ghost var rest := Fields(specs, args, errno, console);
    assert [] + rest == rest;
    for slot := 0 to |specs|
      invariant 0 <= next <= |args| && Matching(specs[slot..], args[next..])
      invariant rest == Fields(specs[slot..], args[next..], errno, console)
      invariant fields + rest == Fields(specs, args, errno, console)
    {
      FieldsStep(specs, args, slot, next, errno, console);
      var f := FieldOf(specs[slot], args, next, errno, console);
      if !specs[slot].arg.ErrnoArg? {
        next := next + 1;
      }
      rest := Fields(specs[slot + 1..], args[next..], errno, console);
      Assoc(fields, [f], rest);
      fields := fields + [f];
    }
    NoSpecs(specs, args[next..], errno, console);
    assert fields + [] == fields;
  }

  lemma {:induction false} NoSpecs(specs: seq<Kvfmt.Spec>, args: seq<Arg>, errno: int, console: bool)
    requires Matching(specs[|specs|..], args)
    ensures Fields(specs[|specs|..], args, errno, console) == []
  {
  }

  predicate GoodKeys(specs: seq<Kvfmt.Spec>) {
    forall i :: 0 <= i < |specs| ==> Kvfmt.GoodKey(specs[i].key)
  }

  lemma GoodKeyIsPlain(k: bytes)
    requires Kvfmt.GoodKey(k)
    ensures k != [] && JsonString.Plain(k)
  {
    assert forall i :: 0 <= i < |k| ==> Kvfmt.KeyByte(k[i]);
  }

  lemma {:induction false} FieldsAreMade(specs: seq<Kvfmt.Spec>, args: seq<Arg>, errno: int, console: bool)
    requires Matching(specs, args) && GoodKeys(specs)
    ensures AllKvMade(Fields(specs, args, errno, console))
  {
    if specs == [] {
    } else {
      GoodKeyIsPlain(specs[0].key);
      hide Kvfmt.GoodKey, JsonString.Plain;
      if specs[0].arg.ErrnoArg? {
        FieldsAreMade(specs[1..], args, errno, console);
      } else {
        FieldsAreMade(specs[1..], args[1..], errno, console);
      }
    }
  }

  lemma AcceptedKeysAreGood(format: bytes)
    requires Kvfmt.Parse(format).Some?
    ensures GoodKeys(Kvfmt.Parse(format).value)
  {
    Kvfmt.AcceptedKeys(format, Kvfmt.MAX_FIELDS);
    hide Kvfmt.GoodKey, Kvfmt.ParseFrom;
  }

  lemma {:induction false} AcceptedAreMade(format: bytes, args: seq<Arg>, errno: int, console: bool)
    requires Kvfmt.Parse(format).Some? && Matching(Kvfmt.Parse(format).value, args)
    ensures AllKvMade(Fields(Kvfmt.Parse(format).value, args, errno, console))
  {
    hide Kvfmt.GoodKey, Kvfmt.Parse, GoodKeys;
    AcceptedKeysAreGood(format);
    FieldsAreMade(Kvfmt.Parse(format).value, args, errno, console);
  }

  // ----- what a format should say of its arguments -----

  /** A value by its verb and its argument, as a reader of JSON should see it. */
  function Told(sh: Shared, t: Kvfmt.ArgType, a: Arg): JsonText.Json
    requires Fits(t, a)
  {
    match t
    case StringArg => JsonText.String(Utf8.CodePoints(if a.text.Some? then a.text.value else []))
    case IntArg => JsonText.Number(Integers.SignedText(a.i))
    case LongArg => JsonText.Number(Integers.SignedText(a.i))
    case UnsignedArg => JsonText.Number(Integers.SignedText(a.u))
    case UnsignedLongArg => JsonText.Number(Integers.SignedText(a.u))
    case DoubleArg =>
      if a.d.Finite? then JsonText.Number(sh.platform.double(a.d.bits))
      else if sh.nonFiniteAsNull then JsonText.Null
      else JsonText.String(Ascii(if a.d.NaN? then "NaN" else if a.d.negative then "-Inf" else "+Inf"))
    case PointerArg => JsonText.String(Utf8.CodePoints(sh.platform.pointer(a.address)))
    case BoolArg => JsonText.Bool(a.flag != 0)
  }

  /** The pairs of a format: each argument under the key of its field, in order; `%m` is the saved error. */
  function ToldPairs(sh: Shared, specs: seq<Kvfmt.Spec>, args: seq<Arg>, errno: int): seq<JsonText.Pair>
    requires Matching(specs, args)
  {
    if specs == [] then []
    else if specs[0].arg.ErrnoArg? then
      [JsonText.Pair(Utf8.CodePoints(specs[0].key), JsonText.String(Utf8.CodePoints(sh.platform.errno(errno))))] +
      ToldPairs(sh, specs[1..], args, errno)
    else
      [JsonText.Pair(Utf8.CodePoints(specs[0].key), Told(sh, specs[0].arg, args[0]))] +
      ToldPairs(sh, specs[1..], args[1..], errno)
  }

  /** The same for a reader of console lines. */
  function Displayed(sh: Shared, t: Kvfmt.ArgType, a: Arg): bytes
    requires Fits(t, a)
  {
    match t
    case StringArg => if a.text.Some? then a.text.value else []
    case IntArg => Integers.SignedText(a.i)
    case LongArg => Integers.SignedText(a.i)
    case UnsignedArg => Integers.SignedText(a.u)
    case UnsignedLongArg => Integers.SignedText(a.u)
    case DoubleArg =>
      if a.d.Finite? then sh.platform.double(a.d.bits)
      else Ascii(if a.d.NaN? then "nan" else if a.d.negative then "-inf" else "inf")
    case PointerArg => sh.platform.pointer(a.address)
    case BoolArg => Ascii(if a.flag != 0 then "true" else "false")
  }

  function DisplayedEntries(sh: Shared, specs: seq<Kvfmt.Spec>, args: seq<Arg>, errno: int): seq<ConsoleReads.Entry>
    requires Matching(specs, args)
  {
    if specs == [] then []
    else if specs[0].arg.ErrnoArg? then
      [ConsoleReads.Entry(specs[0].key, sh.platform.errno(errno))] + DisplayedEntries(sh, specs[1..], args, errno)
    else
      [ConsoleReads.Entry(specs[0].key, Displayed(sh, specs[0].arg, args[0]))] +
      DisplayedEntries(sh, specs[1..], args[1..], errno)
  }

  lemma DatumTells(sh: Shared, t: Kvfmt.ArgType, a: Arg, console: bool)
    requires Fits(t, a)
    ensures JsonReads.Meaning(sh, DatumOf(a, console)) == Told(sh, t, a)
    ensures ConsoleReads.Shown(sh, DatumOf(a, console)) == Displayed(sh, t, a)
  {
    hide Ascii, Utf8.CodePoints, Integers.SignedText, JsonString.AsciiTrusted, ConsoleString.Simple;
  }

  /** The fields of a format tell each argument under its key, in order, to either reader. */
  lemma {:induction false} FieldsTell(sh: Shared, specs: seq<Kvfmt.Spec>, args: seq<Arg>, errno: int, console: bool)
    requires Matching(specs, args) && GoodKeys(specs)
    ensures JsonReads.KvPairs(sh, Fields(specs, args, errno, console)) == ToldPairs(sh, specs, args, errno)
    ensures ConsoleReads.Entries(sh, Fields(specs, args, errno, console)) == DisplayedEntries(sh, specs, args, errno)
  {
    if specs == [] {
    } else {
      hide DatumOf, Fits, Told, Displayed, JsonReads.Meaning, ConsoleReads.Shown, Kvfmt.KeyText;
      var none := specs[0].arg.ErrnoArg?;
      var rest := if none then args else args[1..];
      FieldsTell(sh, specs[1..], rest, errno, console);
      if none {
        ErrnoTells(sh, errno);
      } else {
        DatumTells(sh, specs[0].arg, args[0], console);
      }
      Tail(Fields(specs, args, errno, console)[0], Fields(specs[1..], rest, errno, console));
    }
  }

  lemma ErrnoTells(sh: Shared, errno: int)
    ensures JsonReads.Meaning(sh, Errno(errno)) == JsonText.String(Utf8.CodePoints(sh.platform.errno(errno)))
    ensures ConsoleReads.Shown(sh, Errno(errno)) == sh.platform.errno(errno)
  {
  }

  // ----- filtering and the diagnostic -----

  /** The numbers of the level constants. */
  function Severity(l: Level): int {
    match l
    case Trace => -1
    case Debug => 0
    case Info => 1
    case Warn => 2
    case Error => 3
    case Fatal => 4
    case Panic => 5
    case NoLevel => 6
    case Disabled => 127
  }

  /** `pslog_should_log` on an open output */
  predicate ShouldLog(minLevel: Level, level: Level) {
    if level == Disabled then false
    else if level == Fatal || level == Panic then true
    else if minLevel == Disabled then false
    else Severity(level) >= Severity(if minLevel == NoLevel then Info else minLevel)
  }

  /** The levels from least to most severe; the last says that no level was given. */
  const SCALE: seq<Level> := [Trace, Debug, Info, Warn, Error, Fatal, Panic, NoLevel]

  /**
   An event passes a threshold exactly when it does not come before it on the
   scale, a threshold without a level counting as `info`. Fatal events and panics
   always pass, even a disabled logger; the disabled level never does.
   */
  lemma ThresholdAdmits(i: nat, j: nat, minLevel: Level)
    requires i < |SCALE| && j < |SCALE|
    ensures ShouldLog(SCALE[i], SCALE[j]) <==> j == 5 || j == 6 || (if i == 7 then 2 else i) <= j
    ensures ShouldLog(Disabled, SCALE[j]) <==> j == 5 || j == 6
    ensures !ShouldLog(minLevel, Disabled)
  {
  }

  const INVALID_KVFMT: bytes :=
    [0x69, 0x6e, 0x76, 0x61, 0x6c, 0x69, 0x64, 0x20, 0x6b, 0x76, 0x66, 0x6d, 0x74]

  /** What a format that does not parse is logged as. */
  function Diagnostic(stamp: bytes, level: Level): Event {
    Event(stamp, if level == Fatal || level == Panic then level else Error, INVALID_KVFMT, [])
  }

  /** `pslog_log_impl`: the line that leaves, if one does. */
  function Log(log: Logger, e: Event): Option<bytes> {
    if !ShouldLog(log.minLevel, e.level) then None
    else Some(if log.shared.json then JsonLine.Line(log, e) else ConsoleLine.Line(log, e))
  }

  /** `pslog_vlogf_impl` with a format */
  function Logf(log: Logger, stamp: bytes, level: Level, msg: bytes, format: bytes, args: seq<Arg>, errno: int):
      Option<bytes>
    requires Kvfmt.Parse(format).Some? ==> Matching(Kvfmt.Parse(format).value, args)
  {
    if !ShouldLog(log.minLevel, level) then None
    else
      match Kvfmt.Parse(format)
      case None => Log(log, Diagnostic(stamp, level))
      case Some(specs) =>
        var e := Event(stamp, level, msg, Fields(specs, args, errno, !log.shared.json));
        Some(if log.shared.json then JsonLine.KvLine(log, e) else ConsoleLine.KvLine(log, e))
  }

  /** The event that a caller of `log` would have logged. */
  function Plainer(stamp: bytes, level: Level, msg: bytes, format: bytes, args: seq<Arg>, errno: int, console: bool): Event
    requires Kvfmt.Parse(format).Some? && Matching(Kvfmt.Parse(format).value, args)
  {
    AcceptedAreMade(format, args, errno, console);
    Event(stamp, level, msg, AllConstructed(Fields(Kvfmt.Parse(format).value, args, errno, console)))
  }

  predicate WellFormedKeys(specs: seq<Kvfmt.Spec>) {
    forall i :: 0 <= i < |specs| ==> Utf8.Valid(specs[i].key)
  }

  lemma {:induction false} PlainKeyIsTrusted(k: bytes)
    requires Kvfmt.GoodKey(k)
    ensures JsonString.Trusted(k) <==> Utf8.Valid(k)
  {
    GoodKeyIsPlain(k);
  }

  lemma DatumIsMade(t: Kvfmt.ArgType, a: Arg, console: bool, key: bytes)
    requires Fits(t, a)
    ensures WellMade(Field(key, true, DatumOf(a, console))) <==> JsonString.Trusted(key)
  {
    if a.StringValue? && JsonString.AsciiTrusted(DatumOf(a, console).text) {
      JsonString.AsciiTrustedIsTrusted(DatumOf(a, console).text);
    }
  }

  lemma {:induction false} FirstIsMade(specs: seq<Kvfmt.Spec>, args: seq<Arg>, errno: int, console: bool)
    requires specs != [] && Matching(specs, args) && Kvfmt.GoodKey(specs[0].key)
    ensures WellMade(Fields(specs, args, errno, console)[0]) <==> Utf8.Valid(specs[0].key)
  {
    PlainKeyIsTrusted(specs[0].key);
    hide Kvfmt.GoodKey, JsonString.Trusted, Fits;
    if !specs[0].arg.ErrnoArg? {
      DatumIsMade(specs[0].arg, args[0], console, specs[0].key);
    }
  }

  lemma FirstOfKeys(specs: seq<Kvfmt.Spec>)
    requires specs != []
    ensures WellFormedKeys(specs) <==> Utf8.Valid(specs[0].key) && WellFormedKeys(specs[1..])
  {
    assert specs == [specs[0]] + specs[1..];
  }

  /**
   Fields that `withf` makes of an accepted format are as good as constructed
   ones exactly when its keys are well-formed: the key flag is set unchecked.
   */
  lemma {:induction false} StaticFieldsOfFormat(specs: seq<Kvfmt.Spec>, args: seq<Arg>, errno: int, console: bool)
    requires Matching(specs, args) && GoodKeys(specs)
    ensures AllWellMade(Fields(specs, args, errno, console)) <==> WellFormedKeys(specs)
  {
    if specs != [] {
      hide Kvfmt.GoodKey, Fits, WellMade, WellFormedKeys, AllWellMade, DatumOf;
      FirstIsMade(specs, args, errno, console);
      FirstOfKeys(specs);
      var rest := if specs[0].arg.ErrnoArg? then args else args[1..];
      StaticFieldsOfFormat(specs[1..], rest, errno, console);
      var fs := Fields(specs, args, errno, console);
      FirstOfAll(fs[0], Fields(specs[1..], rest, errno, console));
    } else {
      assert Fields(specs, args, errno, console) == [];
    }
  }

  lemma FirstOfAll(f: Field, fs: seq<Field>)
    ensures AllWellMade([f] + fs) <==> WellMade(f) && AllWellMade(fs)
  {
    hide WellMade;
    if AllWellMade([f] + fs) {
      assert WellMade(([f] + fs)[0]);
      forall i | 0 <= i < |fs|
        ensures WellMade(fs[i])
      {
        assert WellMade(([f] + fs)[i + 1]);
      }
    }
  }

  /** The object that logging by format should give. */
  function ToldObject(log: Logger, stamp: bytes, level: Level, msg: bytes, specs: seq<Kvfmt.Spec>, args: seq<Arg>,
                      errno: int): seq<JsonText.Pair>
    requires Matching(specs, args)
  {
    JsonReads.HeadPairs(log.shared, Event(stamp, level, msg, [])) +
    (JsonReads.FieldPairs(log.shared, log.fields) + ToldPairs(log.shared, specs, args, errno) + JsonReads.FootPairs(log))
  }

  lemma {:induction false} ObjectIsTold(log: Logger, e: Event, specs: seq<Kvfmt.Spec>, args: seq<Arg>, errno: int)
    requires Matching(specs, args) && GoodKeys(specs) && e.fields == Fields(specs, args, errno, false)
    ensures AllKvMade(e.fields)
    ensures JsonReads.Pairs(log, e.(fields := AllConstructed(e.fields))) ==
            ToldObject(log, e.stamp, e.level, e.msg, specs, args, errno)
  {
    FieldsAreMade(specs, args, errno, false);
    FieldsTell(log.shared, specs, args, errno, false);
    JsonReads.PairsOfConstructed(log, e);
  }

  /**
   In JSON, logging by format gives a line exactly when logging the constructed
   fields does, with one newline, at its end. The line of the constructed fields
   is the object that has each argument under its key, in order, after the static
   fields; that of the format is the same object exactly when its keys are
   well-formed UTF-8, and no JSON otherwise.
   */
  lemma {:induction false} LogfIsLogInJson(log: Logger, stamp: bytes, level: Level, msg: bytes, format: bytes,
                                           args: seq<Arg>, errno: int)
    requires log.shared.json && !log.shared.colour && JsonLine.Consistent(log) && Sound(log.shared.platform)
    requires AllWellMade(log.fields) && (log.shared.timestamps ==> JsonString.Trusted(stamp))
    requires Kvfmt.Parse(format).Some? && Matching(Kvfmt.Parse(format).value, args)
    ensures var logf := Logf(log, stamp, level, msg, format, args, errno);
            var plain := Log(log, Plainer(stamp, level, msg, format, args, errno, false));
            var specs := Kvfmt.Parse(format).value;
            if !ShouldLog(log.minLevel, level) then logf.None? && plain.None?
            else
              logf.Some? && JsonReads.OneLine(logf.value) && plain.Some? && JsonReads.OneLine(plain.value) &&
              var told := Some(ToldObject(log, stamp, level, msg, specs, args, errno));
              JsonText.Document(JsonReads.Body(plain.value)) == told &&
              JsonText.Document(JsonReads.Body(logf.value)) == if WellFormedKeys(specs) then told else None
  {
    hide Kvfmt.Parse, JsonLine.Line, JsonLine.KvLine, JsonText.Document, JsonReads.Pairs, JsonReads.OneLine, ToldObject;
    hide Matching, AllConstructed, AllKvMade, AllWellMade, JsonLine.Consistent, Sound, JsonString.Trusted;
    AcceptedAreMade(format, args, errno, false);
    AcceptedKeysAreGood(format);
    var specs := Kvfmt.Parse(format).value;
    var e := Event(stamp, level, msg, Fields(specs, args, errno, false));
    ObjectIsTold(log, e, specs, args, errno);
    JsonReads.KvLineReads(log, e);
    JsonReads.LineReads(log, e.(fields := AllConstructed(e.fields)));
    assert JsonReads.ValidKeys(e.fields) <==> WellFormedKeys(specs);
  }

  /** A key of one stray byte is in the language. */
  lemma StrayFormat()
    ensures Kvfmt.Parse([0x80, EQUALS, PERCENT, Kvfmt.LETTER_B]) == Some([Kvfmt.Spec([0x80], Kvfmt.BoolArg)])
    ensures !WellFormedKeys([Kvfmt.Spec([0x80], Kvfmt.BoolArg)])
  {
    var item := Kvfmt.Item(0, [0x80], false, Kvfmt.LETTER_B);
    assert Kvfmt.GoodItem(item, true);
    assert [item][1..] == [];
    Kvfmt.ParseComplete([item], 0, true, Kvfmt.MAX_FIELDS);
    assert Kvfmt.Render([item], 0) == [0x80, EQUALS, PERCENT, Kvfmt.LETTER_B];
    assert Kvfmt.Meaning([item], true) == [Kvfmt.Spec([0x80], Kvfmt.BoolArg)];
    assert !Utf8.Valid([Kvfmt.Spec([0x80], Kvfmt.BoolArg)][0].key);
  }

  /** Logged through it by the plainest of loggers, `true` comes out as a line that is not JSON. */
  lemma StrayLine()
    ensures var format: bytes, args := [0x80, EQUALS, PERCENT, Kvfmt.LETTER_B], [BoolValue(1)];
            Kvfmt.Parse(format).Some? && Matching(Kvfmt.Parse(format).value, args) &&
            var line := Logf(BareLogger(false, Info, false), [], Info, [], format, args, 0);
            line.Some? && JsonReads.OneLine(line.value) && JsonText.Document(JsonReads.Body(line.value)) == None
  {
    var log, format: bytes, args := BareLogger(false, Info, false), [0x80, EQUALS, PERCENT, Kvfmt.LETTER_B], [BoolValue(1)];
    StrayFormat();
    BareIsSound(false, Info, false);
    hide Kvfmt.Parse, Sound, Kvfmt.KeyText, JsonText.Document, JsonLine.KvLine, JsonLine.Line;
    assert Matching([Kvfmt.Spec([0x80], Kvfmt.BoolArg)], args);
    LogfIsLogInJson(log, [], Info, [], format, args, 0);
  }

  /** On the console, logging by format gives byte for byte the line of the constructed fields. */
  lemma {:induction false} LogfIsLogOnConsole(log: Logger, stamp: bytes, level: Level, msg: bytes, format: bytes,
                                              args: seq<Arg>, errno: int)
    requires !log.shared.json && !log.shared.colour && ConsoleLine.Consistent(log)
    requires Kvfmt.Parse(format).Some? && Matching(Kvfmt.Parse(format).value, args)
    ensures Logf(log, stamp, level, msg, format, args, errno) ==
            Log(log, Plainer(stamp, level, msg, format, args, errno, true))
  {
    AcceptedAreMade(format, args, errno, true);
    hide Kvfmt.Parse, ConsoleLine.Line, ConsoleLine.KvLine;
    var e := Event(stamp, level, msg, Fields(Kvfmt.Parse(format).value, args, errno, true));
    ConsoleColour.KvLineIsLine(log, e);
  }

  /** What a console line by format should read back as. */
  function DisplayedRecord(log: Logger, stamp: bytes, level: Level, msg: bytes, specs: seq<Kvfmt.Spec>, args: seq<Arg>,
                           errno: int): ConsoleReads.Record
    requires Matching(specs, args)
  {
    var bare := ConsoleReads.RecordOf(log.(includeLevel := false), Event(stamp, level, msg, []));
    bare.(fields := ConsoleReads.Entries(log.shared, log.fields) + DisplayedEntries(log.shared, specs, args, errno) +
            if log.includeLevel
            then [ConsoleReads.Entry(Ascii("loglevel"), Ascii(Wording.Name(log.minLevel)))]
            else [])
  }

  lemma {:induction false} RecordIsDisplayed(log: Logger, e: Event, specs: seq<Kvfmt.Spec>, args: seq<Arg>, errno: int)
    requires Matching(specs, args) && GoodKeys(specs) && e.fields == Fields(specs, args, errno, true)
    ensures ConsoleReads.RecordOf(log, e) == DisplayedRecord(log, e.stamp, e.level, e.msg, specs, args, errno)
  {
    hide Matching, Fields, DisplayedEntries, ConsoleReads.Entries, Ascii;
    FieldsTell(log.shared, specs, args, errno, true);
    ConsoleReads.EntriesConcat(log.shared, log.fields, e.fields);
  }

  predicate NoEquals(specs: seq<Kvfmt.Spec>) {
    forall i :: 0 <= i < |specs| ==> EQUALS !in specs[i].key
  }

  lemma {:induction false} WordsInFormat(specs: seq<Kvfmt.Spec>, args: seq<Arg>, errno: int)
    requires Matching(specs, args) && GoodKeys(specs)
    requires NoEquals(specs)
    ensures ConsoleReads.WordKeys(Fields(specs, args, errno, true))
  {
    var fs := Fields(specs, args, errno, true);
    forall i | 0 <= i < |fs|
      ensures ConsoleString.NoSpecials(fs[i].key)
    {
      assert Kvfmt.GoodKey(specs[i].key);
    }
  }

  /**
   A console line by format reads back as the timestamp, the label of the level,
   the message, the static fields, each argument under its key, in order, and the
   level field, for keys without an equals sign and exactly the messages that
   have neither a backslash nor an equals sign.
   */
  lemma {:induction false} LogfReadsOnConsole(log: Logger, stamp: bytes, level: Level, msg: bytes, format: bytes,
                                              args: seq<Arg>, errno: int)
    requires !log.shared.json && !log.shared.colour && ConsoleLine.Consistent(log)
    requires ConsoleReads.Words(log.shared.platform) && AllWellMade(log.fields) && ConsoleReads.WordKeys(log.fields)
    requires log.shared.timestamps ==> SPACE !in stamp
    requires Kvfmt.Parse(format).Some? && Matching(Kvfmt.Parse(format).value, args)
    requires NoEquals(Kvfmt.Parse(format).value)
    ensures var logf := Logf(log, stamp, level, msg, format, args, errno);
            var specs := Kvfmt.Parse(format).value;
            if !ShouldLog(log.minLevel, level) then logf.None?
            else
              logf.Some? &&
              (ConsoleReads.ReadLine(logf.value, log.shared.timestamps) ==
                 Some(DisplayedRecord(log, stamp, level, msg, specs, args, errno)) <==>
               BACKSLASH !in msg && EQUALS !in msg)
  {
    hide Kvfmt.Parse, ConsoleLine.Line, ConsoleLine.KvLine, ConsoleReads.ReadLine, ConsoleReads.RecordOf, DisplayedRecord;
    hide Matching, AllKvMade, AllWellMade, ConsoleLine.Consistent, ConsoleReads.Words, Fields;
    AcceptedAreMade(format, args, errno, true);
    AcceptedKeysAreGood(format);
    var specs := Kvfmt.Parse(format).value;
    var e := Event(stamp, level, msg, Fields(specs, args, errno, true));
    WordsInFormat(specs, args, errno);
    RecordIsDisplayed(log, e, specs, args, errno);
    ConsoleReads.KvLineReads(log, e);
  }

  /** How a format that does not parse is reported. */
  function Report(stamp: bytes, level: Level): Event {
    Event(stamp, if level == Fatal || level == Panic then level else Error, Ascii("invalid kvfmt"), [])
  }

  lemma DiagnosticIsReport(stamp: bytes, level: Level)
    ensures Diagnostic(stamp, level) == Report(stamp, level)
  {
    assert INVALID_KVFMT == Ascii("invalid kvfmt");
  }

  /**
   A format that does not parse is reported in place of the event, as an error
   unless the event was fatal or a panic, if the threshold lets both through.
   */
  lemma RefusedIsReported(log: Logger, stamp: bytes, level: Level, msg: bytes, format: bytes, errno: int)
    requires log.shared.json && !log.shared.colour && JsonLine.Consistent(log) && Sound(log.shared.platform)
    requires AllWellMade(log.fields) && (log.shared.timestamps ==> JsonString.Trusted(stamp))
    requires Kvfmt.Parse(format).None?
    ensures var logf := Logf(log, stamp, level, msg, format, [], errno);
            if !ShouldLog(log.minLevel, level) || !ShouldLog(log.minLevel, Report(stamp, level).level) then logf.None?
            else
              logf.Some? && JsonReads.OneLine(logf.value) &&
              JsonText.Document(JsonReads.Body(logf.value)) == Some(JsonReads.Pairs(log, Report(stamp, level)))
  {
    hide Kvfmt.Parse, JsonLine.Line, JsonText.Document, JsonReads.Pairs, JsonReads.OneLine, JsonString.Trusted, Sound;
    hide Ascii;
    DiagnosticIsReport(stamp, level);
    JsonReads.LineReads(log, Report(stamp, level));
  }
}
